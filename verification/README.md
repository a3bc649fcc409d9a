# Adaptive-learning platform: verified model of its stateful cores

This project models six parts of the platform whose correctness depends on
interleavings, on shared mutable state or on round trips, and proves what they
keep. `dafny verify dfyconfig.toml` checks all of it (Dafny 4.11).

- **Sessions in the browser** (`AuthProtocol`, `AuthHistory`, `AuthClient`). The auth client is
  a state machine whose atomic steps are the stretches of code between two
  `await`s; fetches, logins, restores, logouts and refresh rounds interleave
  arbitrarily. The class `Client` overwrites the same fields as the original
  closures, and each of its methods is proved to be the corresponding protocol
  step. `AuthHistory` says what whole runs come to in terms of their events alone: who
  sends which token, what joiners of a refresh get, who writes the store last.
- **Requests over that session** (`ApiClient`, `ApiSession`, `ApiExpiry`). The retry
  loop as a method, one request running over the auth protocol together with
  everything else the page does, and the exact worst case of expired sessions.
- **Feature flags** (`FlagCache`, `FlagProtocol`, `FlagHistory`, `FlagClient`). The
  lazily expiring map against the map of unexpired entries, concurrent evaluations
  racing invalidations, the clock and changes on the server, and what an evaluation
  answers in terms of all that happened before it.
- **Exam review** (`ExamDiff`, `ExamReview`, `ExamAnswers`, `ExamPayload`,
  `FreshCodes`). Diff, keep and save of an AI proposal; whole review sessions in which
  answers land later than they were asked for; what each action does to the payload;
  and the codes of rows added by hand.
- **Translation review** (`JsonLens`, `PathText`, `TranslationVerify`,
  `Selection`). Persistent update of JSON along textual paths, wildcard
  expansion, histories of edits, and paged selection up to a cap.
- **Documents and payloads** (`MdInline`, `MdLines`, `MdBlocks`, `MdShapes`,
  `Transforms`, `Migration`). The markdown converter's inline and block structure, its
  line patterns as the lines they match, the payload rewrites and the migration's row
  loop.

`Prelude` and `Decimal` hold what several modules share: options, and decimal
numerals with their two-way round trip (generated ids and array indices).

Servers, the network, clocks and random numbers are parameters or events: the
auth server answers outstanding requests in any order and hands out each refresh
token at most once; the flag server is a function from time to flag definitions;
validation and the per-type rewrites of the migration are arbitrary functions.

## Where the code falls short of what one might expect

Each of these is a theorem with its exact condition, or a lemma with a concrete
run.

- A session stored by a successful login can still be wiped by the failure of a
  refresh round begun before it. `AuthProtocol.SessionSafety` says exactly when a
  stored session can no longer be touched by answers still to come.
- Keeping logins and restores away does not limit a request to one expired
  session: another fetch may bring tokens back (`ApiExpiry.AnotherFetchRevives`).
  `ApiExpiry.ExpiriesBounded` gives the exact worst case, known before the request is
  made, and `ApiExpiry.OneExpiryAtMost` the exact condition for one: the method is not
  GET, or there are no retries, or the store is empty and there is one retry or no
  source of tokens left.
- The flag SDK's README (line 9) promises that an entry is dropped on every
  `flag.changed`. A fetch that already holds an older answer puts it back
  afterwards; `FlagProtocol.InvalidationGuarantee` gives the exact condition. The
  comment on `Evaluate` says that a decision is emitted on every call; the code emits
  exactly one for each call that returns a value and none after a hard error, which is
  an invariant of `FlagClient.Client` (`FlagClient.CallReturns`, `FlagClient.CallMoves`).
- Keep marks are sticky: the baseline of a re-analysis is the proposal on screen
  with its marks, so a row kept earlier and dropped again is saved without being
  asked for (`ExamDiff.FreshDiffSavesNext`). Regenerating one subject, by contrast,
  forgets its marks (`ExamDiff.RegeneratedPayload`), and a kept subject loses the
  topics that were not kept themselves: it is saved whole if and only if every one of
  them was (`ExamDiff.KeptSubjectSaved`; a failing input in
  `ExamDiff.KeptSubjectLosesTopic`).
- The answer of the AI is merged into what was on screen when it was asked for. A topic
  added meanwhile, or brought by an earlier answer for the same row, is lost unless the
  new answer has it too (`ExamAnswers.AddedWhileAsking`, `ExamAnswers.TwoAnswers`); so
  is a subject added during a re-analysis (`ExamAnswers.AddedWhileAnalysing`).
  `ExamAnswers.StepKeepsCodes` says for every action exactly when it loses a code, and
  `ExamAnswers.NoCodeIsLost` lifts that to sessions. Typing over a topic's code, and an
  answer for a row that is gone, can repeat a code (`ExamReview.StepKeepsDistinct`).
- Writing to `list[01]` changes element 1, but reading `list[01]` finds nothing
  (`JsonLens.GetAfterSet`). Of two edits that would create the same missing node,
  one as an array and one as an object, one is lost in one of the two orders
  (`JsonLens.DisagreementLosesAnEdit`). Text directly after an index, as in `a[0]b`,
  joins it in one segment (`PathText.ParseIndexed`).
- With a cap of zero or less the paged selection reports `capped` without asking
  the server, which is wrong exactly for a cap of zero and an empty list
  (`Selection.ResolveAllMatching`).
- Table cells beyond the header's columns are not written: a table is whole if and only
  if no body line has more cells than the header (`MdBlocks.TableIsWhole`; a failing
  line in `MdBlocks.ThirdCellDropped`).

## Model

| member | source | states |
|---|---|---|
| AuthProtocol.NoTokenSentTwice | packages/auth-client/src/client.ts:97-134 | over every interleaving from a fresh client no refresh token is put into an `/auth/refresh` body twice; a stored token already submitted is the one carried by the round still in flight |
| AuthProtocol.FlagMatchesRounds | packages/auth-client/src/client.ts:97-120 | `refreshInFlight` is set exactly while one round is unfinished, never holds a settled promise, and at most one round is unfinished |
| AuthProtocol.JoinersAgree | packages/auth-client/src/client.ts:97-120 | all fetch calls that joined a round agree: all retried with one access token, or all threw one error; which, is said by `AuthHistory.JoinersGetTheReply` |
| AuthProtocol.FetchSendsAtMostTwice | packages/auth-client/src/client.ts:197-208 | a fetch sends its request once or twice; twice only if it carried a token first and its round succeeded; what it carries is said by `AuthHistory.FirstSendCarriesStored` and `AuthHistory.ResumedAreServed` |
| AuthProtocol.ExpiredOncePerFailedRound | packages/auth-client/src/client.ts:109-134 | `onSessionExpired` fires exactly once for each failed round and never for a failed restore, login or a logout |
| AuthProtocol.AnswersRunOut | packages/auth-client/src/client.ts:97-208 | without new calls every schedule of answers is finite, bounded by the work outstanding |
| AuthProtocol.NoDeadlock | packages/auth-client/src/client.ts:97-208 | while a call is open some answer can arrive: nobody awaits a promise that nothing will settle |
| AuthProtocol.SessionSafety | packages/auth-client/src/client.ts:97-157 | a stored session survives all answers still to come if and only if no round, login, restore, logout or token-carrying first send is open |
| AuthProtocol.Disturbance | packages/auth-client/src/client.ts:97-157 | otherwise a schedule of at most two answers that changes or clears it |
| AuthProtocol.StepKeepsInv | packages/auth-client/src/client.ts:91-214 | every atomic step keeps single flight, at-most-once submission, the ledger of expiries and every fetch call's record |
| AuthProtocol.RunKeepsInv | packages/auth-client/src/client.ts:91-214 | so does every run |
| AuthHistory.JoinersGetTheReply | packages/auth-client/src/client.ts:82-117 | over every interleaving a call that awaited a round and was resumed got the server's reply to the refresh: its second send carried the very access token of an Ok reply; on 401, 423, 429, another status or no usable answer it threw invalid_credentials, locked, rate_limited, unknown or refresh_failed |
| AuthHistory.ResumedAreServed | packages/auth-client/src/client.ts:203-206 | every call that is resumed while it waits for a round is such a joiner, at that moment and ever after: none returns without having retried or thrown |
| AuthHistory.ReplySettles | packages/auth-client/src/client.ts:105-119 | a reply settles its round for good, with the tokens or the error it stands for |
| AuthHistory.RoundsOpenOnUnauthorized | packages/auth-client/src/client.ts:201-206 | a call waits exactly after a 401 to a first send that carried a token; a round is opened exactly then, if none is in flight; every other answer ends the call |
| AuthHistory.FirstSendCarriesStored | packages/auth-client/src/client.ts:197-201 | the first send carries the access token stored at the moment of the call, and none if nothing is stored |
| AuthHistory.RoundSubmitsStored | packages/auth-client/src/client.ts:97-126 | a new round submits the refresh token stored at that moment if there is a non-empty one; a restore submits none; nothing else goes to `/auth/refresh` |
| AuthHistory.LastWriterDecides | packages/auth-client/src/client.ts:91-157 | in every run the store, the user and the presence flag are what the last event that writes them wrote: a good refresh, login or restore, a failed refresh, a failed restore (flag only), a logout, setUser |
| AuthHistory.OwnAnswersOnly | packages/auth-client/src/client.ts:137-157 | an open call is changed by its own answers only; login and restore resolve exactly on a good reply, logout always |
| AuthHistory.LastReplyIsReturned | packages/auth-client/src/client.ts:201-207 | a call that did not fail with its round returns the status, or throws the network error, of the last reply to it |
| AuthClient.MemoryTokenStorage.Set | packages/auth-client/src/storage.ts:36-38 | a later get returns what was set |
| AuthClient.MemoryTokenStorage.Clear | packages/auth-client/src/storage.ts:39-41 | a later get returns nothing |
| AuthClient.Client.constructor | packages/auth-client/src/client.ts:65-68 | a new client starts in the protocol's initial state |
| AuthClient.Client.SetSession | packages/auth-client/src/client.ts:91-95 | store, user and presence flag are replaced together, nothing else changes |
| AuthClient.Client.Refresh | packages/auth-client/src/client.ts:97-105 | the fields change as in the protocol: the round in flight is joined, or one new round opened with the stored token |
| AuthClient.Client.StartFetch | packages/auth-client/src/client.ts:197-201 | the call is the protocol step and keeps the invariant |
| AuthClient.Client.OnFetchReply | packages/auth-client/src/client.ts:201-207 | likewise, for the answer to either send |
| AuthClient.Client.OnRefreshReply | packages/auth-client/src/client.ts:105-117 | likewise, for success and failure of a round; what the reply means for those who await it is `AuthHistory.JoinersGetTheReply`, what it leaves stored `AuthHistory.LastWriterDecides` |
| AuthClient.Client.OnResume | packages/auth-client/src/client.ts:203-205 | likewise, for a caller resumed by the settled promise |
| AuthClient.Client.StartLogin | packages/auth-client/src/client.ts:137-138 | likewise, for the call of a login |
| AuthClient.Client.OnLoginReply | packages/auth-client/src/client.ts:138-141 | and for its answer |
| AuthClient.Client.StartRestore | packages/auth-client/src/client.ts:122-125 | likewise, for a restore, which returns at once when tokens are stored |
| AuthClient.Client.OnRestoreReply | packages/auth-client/src/client.ts:125-133 | likewise; a failed restore touches the presence flag only |
| AuthClient.Client.StartLogout | packages/auth-client/src/client.ts:150-153 | likewise, for the call of a logout, which touches nothing yet |
| AuthClient.Client.OnLogoutReply | packages/auth-client/src/client.ts:153-157 | store, user and flag are cleared whatever the server answered |
| ApiClient.Request | packages/api-client/src/client.ts:35-75 | in statuses: an attempt is followed by another exactly if the method is GET, `retries` are left, and the fetch threw, or the status was 500 or more, or it was 2xx other than 204 with an unreadable body; number of attempts and result are those of the transcript; the pauses are those of that many backoffs, strictly below min(250(2^n-1), 8000n) + 100n ms |
| ApiClient.TranscriptIsUnique | packages/api-client/src/client.ts:42-74 | what the attempts meet fixes their number and the result |
| ApiClient.TranscriptInStatuses | packages/api-client/src/client.ts:42-74 | for every history that fits the transcript: which statuses and failures lead to another attempt, and what the caller gets of the last one: nothing for 204, the body or the parse error for other 2xx, an `ApiError` with the status for any other, what the fetch threw otherwise |
| ApiClient.FinalThrowNeedsNegativeRetries | packages/api-client/src/client.ts:42-74 | the final throw is reached if and only if `retries` is negative; otherwise one to `retries + 1` attempts, one unless GET |
| ApiClient.SleptBetween | packages/api-client/src/client.ts:86-88 | n pauses last 250(2^n-1) ms up to the sixth and 8 s for each later one, plus 100 ms times each random draw, so less than 100n ms more |
| ApiClient.SleptBound | packages/api-client/src/client.ts:86-88 | n pauses together stay strictly below min(250(2^n-1), 8000n) + 100n ms |
| ApiSession.RequestIsBounded | packages/api-client/src/client.ts:35-75 | under every interleaving one request makes at most `retries + 1` fetches (one unless GET) and at most twice as many sends, ends with a result its attempts account for, and runs into at most 1 + (refills of an emptied store) expired sessions |
| ApiSession.AloneExpiresAtMostOnce | packages/api-client/src/client.ts:35-75 | with no other calls on the page `onSessionExpired` fires at most once more, however often the request is attempted |
| ApiExpiry.AnotherFetchRevives | packages/api-client/src/client.ts:35-75 | a run without login or restore in which one request expires the session twice |
| ApiExpiry.ExpiriesBounded | packages/api-client/src/client.ts:35-75 | one request stays within a number of expired sessions on every schedule without new logins or restores if and only if the worst case does, a number known beforehand: the attempts it may take, less the first if the store is empty, none if no token can turn up |
| ApiExpiry.OneExpiryAtMost | packages/api-client/src/client.ts:35-75 | at most one is certain if and only if the method is not GET, or there are no retries, or the store is empty and there is one retry or no token can turn up |
| ApiExpiry.NeverWorse | packages/api-client/src/client.ts:35-75 | no such schedule exceeds the worst case |
| ApiExpiry.WorstHappens | packages/api-client/src/client.ts:35-75 | from every reachable page some schedule attains it |
| ApiSession.MoveKeepsGood | packages/api-client/src/client.ts:42-72 | every move keeps the request's books: finished calls stay finished, all but the last outcome were transient |
| ApiSession.MoveKeepsBounded | packages/auth-client/src/client.ts:97-208 | every move keeps the balance between failed rounds met, exposure to another one, and refills of the store |
| ApiSession.SendsAtMostTwicePerCall | packages/auth-client/src/client.ts:197-208 | n calls to `auth.fetch` send between n and 2n requests |
| FlagCache.TtlCache.Get | libs/go/alpflags/cache.go:30-42 | answers from the map of unexpired entries, and its lazy delete changes that map at no later time |
| FlagCache.TtlCache.Put | libs/go/alpflags/cache.go:44-48 | the entry is replaced with a deadline TTL from now, nothing else changes |
| FlagCache.TtlCache.Invalidate | libs/go/alpflags/cache.go:51-59 | deleting while ranging, in any order, removes exactly the flag's entries for all tenants |
| FlagCache.TtlCache.Size | libs/go/alpflags/cache.go:61-65 | never less than the number of live entries |
| FlagCache.GetChangesNothing | libs/go/alpflags/cache.go:30-42 | the deletion inside a lookup is invisible now and later |
| FlagCache.PutUpdates | libs/go/alpflags/cache.go:44-48 | a put is an update of the abstract map until its deadline and a removal after it |
| FlagCache.InvalidateFilters | libs/go/alpflags/cache.go:51-59 | invalidation is the abstract filter by flag |
| FlagCache.AnswersLatestWrite | libs/go/alpflags/cache.go:30-59 | after any history a lookup hits exactly when the latest put not cancelled by an invalidation is within the TTL, and returns its value |
| FlagProtocol.FirstOverrideWins | libs/go/alpflags/client.go:210-216 | the override list acts as the map in which a tenant's first entry wins, else the default |
| FlagProtocol.ResolveIsTheValue | libs/go/alpflags/client.go:210-217 | a value is the resolved one if and only if it is the first matching override's for a non-empty tenant, and the default's if there is none or the tenant is empty |
| FlagProtocol.BoundedStaleness | libs/go/alpflags/client.go:143-157 | in every run every returned value is the declared fallback or the value the server's definition had for that flag and tenant (first override, else default) at a moment at most TTL + fetch limit earlier |
| FlagProtocol.BoundIsAttained | libs/go/alpflags/client.go:143-157 | a run that returns a value exactly that old: the bound cannot be improved |
| FlagProtocol.DeclaredFlagsNeverFail | libs/go/alpflags/client.go:220-228 | an evaluation fails only for a flag without declared fallback |
| FlagProtocol.FinishedIsServed | libs/go/alpflags/client.go:143-157 | a value that came back, a fallback too, answers the next evaluation for its flag and tenant until the deadline without a fetch, and none after it |
| FlagHistory.AnsweredFromHistory | libs/go/alpflags/client.go:143-157 | at any point of any run an evaluation is answered from the cache, with the value that came back last for its flag and tenant, if and only if the flag was not invalidated since and the TTL has not passed; otherwise it starts a fetch |
| FlagHistory.RunRecorded | libs/go/alpflags/client.go:102-157 | in every run the cache is what its lookups, returned values and invalidations make of it, in the order they happened |
| FlagProtocol.InvalidationGuarantee | libs/go/alpflags/client.go:102-113 | in every continuation after a handled `flag.changed` every server-sourced value of the flag was read after it, if and only if no fetch of the flag then held an answer read earlier |
| FlagProtocol.InvalidationWithoutFetch | libs/go/alpflags/client.go:102-113 | in particular when no fetch of the flag is out |
| FlagProtocol.InvalidationIsLocal | libs/go/alpflags/cache.go:51-59 | other flags keep value and deadline, and no call is touched |
| FlagProtocol.StepKeepsInv | libs/go/alpflags/client.go:102-228 | every step of evaluations, clock, replies and invalidations keeps cache and calls truthful and within the staleness bound |
| FlagProtocol.RunKeepsInv | libs/go/alpflags/client.go:102-228 | so does every run |
| FlagClient.Client.ScanOverrides | libs/go/alpflags/client.go:210-217 | the loop with early return gives the value of the first override for a non-empty tenant, and the default if there is none or the tenant is empty |
| FlagClient.Client.FetchWithSource | libs/go/alpflags/client.go:185-228 | a reply below 400 that decodes gives the tenant's first override, else the default; no connection, 404, another status from 400 and an undecodable body give the declared fallback with that reason, or the hard error if none is declared |
| FlagClient.Client.Begin | libs/go/alpflags/client.go:143-149 | `Evaluate` up to a hit or the fetch is the protocol step; a hit is reported as from the cache |
| FlagClient.Client.Receive | libs/go/alpflags/client.go:185-218 | the reply is evaluated as in the protocol |
| FlagClient.Client.Finish | libs/go/alpflags/client.go:149-157 | the value is cached and reported with its source, a hard error neither |
| FlagClient.Client.OnFlagChanged | libs/go/alpflags/client.go:102-113 | a message naming a flag invalidates it, an empty name nothing |
| FlagClient.CallHits | libs/go/alpflags/client.go:143-148 | a hit adds the one decision of its call, labelled as from the cache |
| FlagClient.CallMisses | libs/go/alpflags/client.go:149 | a miss adds none yet |
| FlagClient.CallReturns | libs/go/alpflags/client.go:154-156 | a fetched value adds the one decision of its call, labelled by where the value came from |
| FlagClient.CallMoves | libs/go/alpflags/client.go:150-153 | an answer under way and a hard error add none: over the client's life there is exactly one decision for each call that returned a value, in that order |
| ExamDiff.DiffTopics | apps/web-admin/src/lib/examDiff.ts:66-82 | the map-and-two-loops code yields the tagged list: AI topics in order, then dropped ones in baseline order |
| ExamDiff.DiffExam | apps/web-admin/src/lib/examDiff.ts:101-128 | likewise for subjects |
| ExamDiff.IndexTopics | apps/web-admin/src/lib/examDiff.ts:67 | the map holds for each code its last row |
| ExamDiff.LastTopicWins | apps/web-admin/src/lib/examDiff.ts:67-71 | the row a code is compared with is the last one that has it |
| ExamDiff.LastSubjectWins | apps/web-admin/src/lib/examDiff.ts:101-105 | likewise for subjects |
| ExamDiff.SaveUndoesDiff | apps/web-admin/src/pages/ExamBuilder.tsx:79-91 | for every baseline and every marking, saving a diff gives exactly the AI's subjects and topics if and only if no dropped row is marked to keep |
| ExamDiff.SaveAfterKeep | apps/web-admin/src/pages/ExamBuilder.tsx:75-91 | after a diff, with any set of Keep marks, the payload is the AI's exam, each subject followed by exactly its kept dropped topics and the whole by the kept dropped subjects, both filtered independently; arbitrary row lists are the subject of `ExamDiff.TopicSavedInPlace` and `ExamDiff.SubjectSavedInPlace` |
| ExamDiff.TopicSavedInPlace | apps/web-admin/src/pages/ExamBuilder.tsx:75-91 | in every list of rows a topic is saved, once and in its place, if and only if it is not both tagged removed and not kept |
| ExamDiff.SubjectSavedInPlace | apps/web-admin/src/pages/ExamBuilder.tsx:75-91 | likewise a subject, with those of its topics that are saved |
| ExamDiff.CleanTopicsAppend | apps/web-admin/src/pages/ExamBuilder.tsx:86-88 | saving two lists of topics one after the other is saving them together |
| ExamDiff.CleanForSaveAppend | apps/web-admin/src/pages/ExamBuilder.tsx:79-91 | and so for subjects |
| ExamDiff.FreshDiffSavesNext | apps/web-admin/src/pages/ExamBuilder.tsx:195-199 | straight after a re-analysis the payload equals the AI's exam if and only if no row kept in an earlier review was dropped again |
| ExamDiff.RegeneratedPayload | apps/web-admin/src/lib/examDiff.ts:89-99 | after regenerating a subject its saved topics are the AI's list, whatever was on screen |
| ExamDiff.KeptSubjectTopics | apps/web-admin/src/pages/ExamBuilder.tsx:79-91 | of a dropped subject's topics exactly those marked themselves are saved: all if and only if every one is marked |
| ExamDiff.KeptSubjectSaved | apps/web-admin/src/pages/ExamBuilder.tsx:75-91 | a dropped subject kept as a whole is saved with exactly its topics that had been kept before |
| ExamDiff.KeptSubjectLosesTopic | apps/web-admin/src/pages/ExamBuilder.tsx:75-91 | a kept subject whose only topic is gone from the payload |
| ExamDiff.DroppedTopicAt | apps/web-admin/src/lib/examDiff.ts:77-80 | every baseline topic whose code is gone is re-injected once, behind exactly those dropped before it |
| ExamDiff.DroppedTopicFrom | apps/web-admin/src/lib/examDiff.ts:77-80 | every re-injected topic comes from such a place in the baseline |
| ExamDiff.DroppedSubjectAt | apps/web-admin/src/lib/examDiff.ts:116-125 | likewise for subjects, all topics tagged removed |
| ExamDiff.DroppedSubjectFrom | apps/web-admin/src/lib/examDiff.ts:116-125 | and conversely |
| ExamDiff.DiffConservesCodes | apps/web-admin/src/lib/examDiff.ts:66-82 | the diff's codes are the union of both sides |
| ExamDiff.DiffKeepsDistinct | apps/web-admin/src/lib/examDiff.ts:66-82 | distinct codes on both sides stay distinct |
| ExamDiff.TopicTags | apps/web-admin/src/lib/examDiff.ts:53-82 | added, removed and unchanged mean exactly: only in the AI's list, only in the baseline, in both with equal content; a Keep mark is only ever on a dropped row that had one |
| ExamDiff.SubjectTags | apps/web-admin/src/lib/examDiff.ts:57-128 | likewise for subjects and their own fields; all topics of an added or removed subject carry its tag |
| ExamDiff.TopicTagsWithin | apps/web-admin/src/lib/examDiff.ts:105-113 | inside a subject on both sides each topic is tagged by that subject's two topic lists |
| ExamDiff.TopicsWithin | apps/web-admin/src/lib/examDiff.ts:105-113 | and those are exactly the topics of both lists, the AI's first and in order |
| ExamDiff.RegeneratedTags | apps/web-admin/src/lib/examDiff.ts:83-99 | a regenerated list is tagged against the texts on screen and carries no Keep mark |
| ExamDiff.SidesRecovered | apps/web-admin/src/lib/examDiff.ts:66-82 | without the added rows the codes are the baseline's, without the removed ones the topics are the AI's in order |
| ExamReview.CodesStayDistinct | apps/web-admin/src/pages/ExamBuilder.tsx:197-335 | over any session, with answers landing in any order after they were asked for, all codes stay distinct if and only if no topic code is typed over another and no answer lands on a row that is gone |
| ExamAnswers.NoCodeIsLost | apps/web-admin/src/pages/ExamBuilder.tsx:197-335 | over any session every code that was ever on screen stays there if and only if each action, judged when it is taken, loses nothing; only late answers, removals and typing over a code can |
| ExamAnswers.StepKeepsCodes | apps/web-admin/src/pages/ExamBuilder.tsx:197-335 | one action keeps every code on screen if and only if the condition stated for it holds |
| ExamAnswers.TimelySessionsLoseNothing | apps/web-admin/src/pages/ExamBuilder.tsx:197-335 | no code is lost when each answer lands on a row or screen that gained no code since it was asked for and nothing is taken away by hand |
| ExamReview.StepKeepsDistinct | apps/web-admin/src/pages/ExamBuilder.tsx:197-335 | the same for one action, exactly |
| ExamReview.LandedDistinct | apps/web-admin/src/pages/ExamBuilder.tsx:324-329 | an answer past the end appends a row without a code, which is harmless only right past the end and once |
| ExamReview.ReanalyzeKeepsCodes | apps/web-admin/src/pages/ExamBuilder.tsx:396-405 | a re-analysis diffed against the screen itself loses no subject and no topic within it |
| ExamReview.DiffConservesExam | apps/web-admin/src/lib/examDiff.ts:101-128 | the diff of two exams has the subjects of either and, under each, exactly the topic codes of both |
| ExamReview.MergeConservesCodes | apps/web-admin/src/lib/examDiff.ts:89-99 | a regeneration's codes are the union of the current list and the AI's |
| ExamAnswers.LateRegeneration | apps/web-admin/src/pages/ExamBuilder.tsx:301-329 | an answer merged into the list of the click and written to the row of the click loses nothing if and only if that list or the answer has every topic the row holds by then |
| ExamAnswers.LateRegenerationSafe | apps/web-admin/src/pages/ExamBuilder.tsx:301-329 | it loses nothing whatever the AI answers if and only if that list has them all |
| ExamAnswers.LateReanalysis | apps/web-admin/src/pages/ExamBuilder.tsx:396-405 | an analysis diffed against the baseline of the moment, or none, loses nothing if and only if baseline and answer together still hold every row |
| ExamAnswers.LateReanalysisSafe | apps/web-admin/src/pages/ExamBuilder.tsx:197-199 | whatever the AI answers, if and only if the baseline still covers the screen |
| ExamAnswers.AddedWhileAsking | apps/web-admin/src/pages/ExamBuilder.tsx:301-329 | a topic added during a regeneration of its subject survives if and only if the AI hands out its code |
| ExamAnswers.AddedWhileAnalysing | apps/web-admin/src/pages/ExamBuilder.tsx:197-199 | a subject added during a re-analysis survives if and only if the AI proposes its code |
| ExamAnswers.TwoAnswers | apps/web-admin/src/pages/ExamBuilder.tsx:1076-1084 | with two answers under way for one row the second leaves the captured topics and its own, not what the first brought |
| ExamAnswers.RegenerateThenSave | apps/web-admin/src/pages/ExamBuilder.tsx:322-329 | the payload of a regenerated subject depends on the answer that landed last alone |
| ExamPayload.AddedTopicIsSaved | apps/web-admin/src/pages/ExamBuilder.tsx:1346-1361 | after "Add topic" the saved topics of that subject end in the new one, whatever the other tags, and the rest of the payload stays |
| ExamPayload.AddedSubjectIsSaved | apps/web-admin/src/pages/ExamBuilder.tsx:826-849 | after "Add subject" the payload ends in the new subject |
| ExamPayload.KeptTopicIsSaved | apps/web-admin/src/pages/ExamBuilder.tsx:1304-1308 | Keep puts a topic into the payload at its place and changes nothing else |
| ExamPayload.KeptSubjectIsSaved | apps/web-admin/src/pages/ExamBuilder.tsx:1172-1175 | Keep puts a subject into the payload at its place, with those of its topics that are saved themselves |
| ExamPayload.EditedCodeIsSaved | apps/web-admin/src/pages/ExamBuilder.tsx:1282-1287 | typing over a code changes that code in the payload and nothing else |
| ExamPayload.RemovedTopicIsNotSaved | apps/web-admin/src/pages/ExamBuilder.tsx:1324-1328 | removing a topic takes it out of the payload and nothing else |
| ExamPayload.RemovedSubjectIsNotSaved | apps/web-admin/src/pages/ExamBuilder.tsx:820-824 | likewise for a subject |
| ExamPayload.LandedTopicsAreSaved | apps/web-admin/src/pages/ExamBuilder.tsx:322-329 | an answer that lands on its row replaces that subject's saved topics by the AI's list, whatever was captured, and changes nothing else |
| ExamPayload.StrayTopicsAreSaved | apps/web-admin/src/pages/ExamBuilder.tsx:324-329 | an answer for the row just past the end adds a subject without code to the payload |
| ExamPayload.FilledTopicsAreSaved | apps/web-admin/src/pages/ExamBuilder.tsx:276-288 | filling empty subjects replaces the saved topics of exactly the subjects it has lists for |
| ExamPayload.FirstAnalysisIsSaved | apps/web-admin/src/pages/ExamBuilder.tsx:396-405 | without a baseline the AI's exam is saved as it is |
| ExamPayload.ReanalysisIsSaved | apps/web-admin/src/pages/ExamBuilder.tsx:195-405 | a re-analysis that lands with nothing done meanwhile shows the diff against the screen; its payload is the AI's exam if and only if no row kept on screen is dropped again |
| ExamPayload.RegenerationOnScreen | apps/web-admin/src/pages/ExamBuilder.tsx:301-329 | a regeneration likewise: each topic of the row is tagged against what the row showed at the click |
| FreshCodes.FreshCode | apps/web-admin/src/pages/ExamBuilder.tsx:826-849 | the loop ends for every finite set of used codes within one more step than there are codes, with the least unused index |
| FreshCodes.FreshIsUnique | apps/web-admin/src/pages/ExamBuilder.tsx:1347-1354 | the rule "least unused index" determines the code |
| Decimal.ValDec | apps/web-admin/src/components/PayloadDiff.tsx:69-83 | the numeral written into an expanded path is canonical and reads back as its number |
| Decimal.DecVal | apps/web-admin/src/components/PayloadDiff.tsx:16-24 | every canonical numeral is the one written for its value |
| Decimal.ValPositional | apps/web-admin/src/components/PayloadDiff.tsx:43-53 | a digit string has its positional value: digits before the last n count 10^n times |
| Decimal.LabelInjective | apps/web-admin/src/pages/ExamBuilder.tsx:829-833 | different indices give different generated names |
| JsonLens.GetAfterSet | apps/web-admin/src/components/PayloadDiff.tsx:30-66 | a value that was set is read back if and only if every array on the way, existing or created, is addressed by a canonical index |
| JsonLens.SetSet | apps/web-admin/src/components/PayloadDiff.tsx:30-66 | the second of two sets at one path wins entirely, on any path |
| JsonLens.SetCreates | apps/web-admin/src/components/PayloadDiff.tsx:48-64 | setting below a missing or null property creates an array, with holes, if the next segment is all digits, and an object otherwise |
| JsonLens.SetOne | apps/web-admin/src/components/PayloadDiff.tsx:36-45 | what is set into: an array keeps its other elements, an object its other properties, anything else becomes an object |
| JsonLens.SetFrame | apps/web-admin/src/components/PayloadDiff.tsx:30-66 | every path that is neither prefix nor extension reads as before |
| JsonLens.SetsCommute | apps/web-admin/src/components/PayloadDiff.tsx:30-66 | sets at incomparable addressable paths commute if and only if the paths agree on the nodes to be created on the way |
| JsonLens.ResolvedAgree | apps/web-admin/src/components/PayloadDiff.tsx:30-66 | incomparable paths that already resolve agree |
| JsonLens.ApartAgree | apps/web-admin/src/components/PayloadDiff.tsx:30-66 | so do, in every document, paths that part in two indices or in two names |
| JsonLens.DisagreementLosesAnEdit | apps/web-admin/src/components/PayloadDiff.tsx:30-66 | two incomparable paths agree if and only if both values are read back whichever is set first |
| JsonLens.AddressableAfterSet | apps/web-admin/src/components/PayloadDiff.tsx:30-66 | a path stays addressable after being set |
| JsonLens.AddressableAgree | apps/web-admin/src/components/PayloadDiff.tsx:30-66 | and after a set at a path that agrees with it |
| JsonLens.AgreeAfterSet | apps/web-admin/src/components/PayloadDiff.tsx:30-66 | paths go on agreeing when one of them or a third is set |
| JsonLens.EditHistory | apps/web-admin/src/pages/TranslationVerify.tsx:50-56 | after any sequence of edits to addressable, pairwise agreeing paths each holds the value last written to it or the original |
| JsonLens.NeighboursCommute | apps/web-admin/src/pages/TranslationVerify.tsx:50-56 | exchanging neighbouring edits of different paths gives the same document |
| PathText.GetAtPath | apps/web-admin/src/components/PayloadDiff.tsx:16-24 | the loop with early return reads the parsed path |
| PathText.ParsePrint | apps/web-admin/src/components/PayloadDiff.tsx:17 | every path in dot-and-bracket notation parses back to its segments |
| PathText.ParseIndexed | apps/web-admin/src/components/PayloadDiff.tsx:17 | head, bracketed index and tail parse to head ++ [index] ++ tail if and only if the tail is empty or begins a new segment |
| PathText.ParseNamed | apps/web-admin/src/components/PayloadDiff.tsx:17 | a dotted name parses to one more segment |
| PathText.LastStarIsLast | apps/web-admin/src/components/PayloadDiff.tsx:72 | the greedy pattern splits at the last wildcard |
| PathText.WildcardFound | apps/web-admin/src/components/PayloadDiff.tsx:72-73 | a wildcard is found if and only if `[*]` occurs in the pattern and no line break does |
| PathText.PlainPatternKept | apps/web-admin/src/components/PayloadDiff.tsx:72-76 | a pattern in which none is found stands for itself |
| PathText.PatternInPlace | apps/web-admin/src/components/PayloadDiff.tsx:69-83 | the expansions come in the order of the patterns, each complete and once |
| PathText.PlainPatternInPlace | apps/web-admin/src/components/PayloadDiff.tsx:69-83 | so a plain pattern comes out at its place |
| PathText.PushExpansion | apps/web-admin/src/components/PayloadDiff.tsx:71-80 | one pass pushes the expansion of its pattern; a pattern without `[*]`, or with a line break, is pushed itself |
| PathText.ExpandPaths | apps/web-admin/src/components/PayloadDiff.tsx:69-83 | the loops yield the expansions of all patterns, one after the other; each at its place by `PathText.PatternInPlace` |
| PathText.ExpandedPathsResolve | apps/web-admin/src/components/PayloadDiff.tsx:72-80 | one concrete path per element of the source array, in order; each resolves to that element and the rest of the pattern below it if that rest begins a new segment |
| PathText.ExpandedPathsApart | apps/web-admin/src/components/PayloadDiff.tsx:72-80 | two paths of one expansion part in two indices |
| PathText.ExpandedPathsEditable | apps/web-admin/src/components/PayloadDiff.tsx:72-80 | so all of them can be edited together in any payload in which each is addressable |
| TranslationVerify.RowKeyInjective | apps/web-admin/src/pages/TranslationVerify.tsx:14-16 | drafts of different questions or languages have different keys |
| TranslationVerify.Screen.SaveEdit | apps/web-admin/src/pages/TranslationVerify.tsx:50-56 | the row's payload is the previous one (the translation's own at first) with the edit applied, other rows are untouched, and the text reads back at its path if and only if that path is addressable |
| TranslationVerify.RowsAreIndependent | apps/web-admin/src/pages/TranslationVerify.tsx:50-56 | whatever the order of edits across rows and however often the list is loaded again in between, a row's payload is its own edits applied to the translation its first edit started from |
| TranslationVerify.SavedPayload | apps/web-admin/src/pages/TranslationVerify.tsx:50-56 | the payload saved last holds at every editable path the text typed last or what that translation had |
| Selection.ResolveAllMatching | apps/web-admin/src/pages/translation-selection.ts:20-36 | ends for every server and any changing total; over a fixed list with arbitrary page sizes and for every cap returns exactly the first min(cap, size) ids, capped iff size > cap, unless cap is zero and the list empty |
| Selection.CollectedIsPrefix | apps/web-admin/src/pages/translation-selection.ts:27-33 | with offset = ids collected, pages of any sizes join to a beginning of the list |
| MdInline.BestIsLeftmost | docs/02-design/_tooling/md_to_docx.py:94-100 | the match chosen occurs, every other occurrence of any pattern starts further right, and none is chosen only if none occurs |
| MdInline.NoTies | docs/02-design/_tooling/md_to_docx.py:54-59 | no two patterns match at the same place, so table order never decides |
| MdInline.SearchLeftmost | docs/02-design/_tooling/md_to_docx.py:97 | one pattern's search finds its leftmost occurrence |
| MdInline.EarliestMatch | docs/02-design/_tooling/md_to_docx.py:94-100 | the loop over the table finds that best match |
| MdInline.RenderInline | docs/02-design/_tooling/md_to_docx.py:86-131 | the rendering loop ends and emits the specified runs |
| MdInline.InlineIsLossless | docs/02-design/_tooling/md_to_docx.py:86-131 | re-wrapping every run in its delimiters gives back the text character for character |
| MdInline.StepConsumes | docs/02-design/_tooling/md_to_docx.py:54-59 | a styled step consumes at least 3 characters, 5 for bold, 6 for a link |
| MdInline.InlineIsTheReading | docs/02-design/_tooling/md_to_docx.py:86-131 | a list of runs reads the text leftmost first if and only if it is the one emitted |
| MdBlocks.ParseTable | docs/02-design/_tooling/md_to_docx.py:236-254 | a table is found iff a line with a pipe is followed by a separator line; it takes exactly the non-blank lines with pipes that follow |
| MdBlocks.TakeQuote | docs/02-design/_tooling/md_to_docx.py:329-346 | takes the longest run of quote lines and joins their contents |
| MdBlocks.TakeParagraph | docs/02-design/_tooling/md_to_docx.py:375-396 | takes lines up to the first that stops a paragraph |
| MdBlocks.TakeBlock | docs/02-design/_tooling/md_to_docx.py:295-396 | one pass claims exactly the stretch of the first applicable rule and emits its block |
| MdBlocks.FenceLine | docs/02-design/_tooling/md_to_docx.py:278-293 | inside a fence a line is collected or, if it is a fence line, ends the block with the lines collected verbatim |
| MdBlocks.ConvertFile | docs/02-design/_tooling/md_to_docx.py:275-400 | the loop ends; the stretches of blocks, blank lines and fences tile all lines once and in order, and the document is what they emit, fenced lines verbatim even when the fence is never closed |
| MdBlocks.TilingUnique | docs/02-design/_tooling/md_to_docx.py:275-400 | there is only one such tiling |
| MdBlocks.DocumentUnique | docs/02-design/_tooling/md_to_docx.py:275-400 | so the lines determine the document |
| MdBlocks.EmitAllAppend | docs/02-design/_tooling/md_to_docx.py:275-400 | the blocks come in the order of the stretches, each stretch's own together |
| MdBlocks.FencedVerbatim | docs/02-design/_tooling/md_to_docx.py:278-293 | the lines of a fence come out verbatim without the fence lines; a fence opened on the last line leaves nothing |
| MdBlocks.TilesPartition | docs/02-design/_tooling/md_to_docx.py:275-400 | the stretches put together are the document |
| MdBlocks.StopIsClaimed | docs/02-design/_tooling/md_to_docx.py:378-391 | a line stops a paragraph if and only if it is blank or claimed by another rule |
| MdBlocks.ParagraphsNeverAdjacent | docs/02-design/_tooling/md_to_docx.py:375-396 | paragraphs are maximal |
| MdBlocks.BlankIsEmpty | docs/02-design/_tooling/md_to_docx.py:46-52 | with the converter's patterns a line outside fences is dropped if and only if it is blank |
| MdBlocks.TableIsWhole | docs/02-design/_tooling/md_to_docx.py:222-226 | a body line is written as far as the header's columns go; every cell of every line is written if and only if no body line has more cells than the header |
| MdBlocks.ThirdCellDropped | docs/02-design/_tooling/md_to_docx.py:222-226 | of the line `a|b|c` under two header cells only the first two are |
| MdShapes.OnlyTablesCompete | docs/02-design/_tooling/md_to_docx.py:295-375 | no line matches two of the patterns for fences, rules, headings, quotes, bullets and numbered items; only the start of a table competes with them, after headings and before quotes and list items |
| MdShapes.HeadingParts | docs/02-design/_tooling/md_to_docx.py:46 | a heading line is one to six hashes, spaces, and the text that is captured, trimmed |
| MdShapes.HeadingWhole | docs/02-design/_tooling/md_to_docx.py:46 | and every such line is a heading with that level and text |
| MdShapes.RuleParts | docs/02-design/_tooling/md_to_docx.py:47 | a rule is three or more dashes, stars or underscores between spaces |
| MdShapes.RuleWhole | docs/02-design/_tooling/md_to_docx.py:47 | and every such line is one |
| MdShapes.FenceParts | docs/02-design/_tooling/md_to_docx.py:48 | a fence is three backticks, a word or nothing, and spaces |
| MdShapes.FenceWhole | docs/02-design/_tooling/md_to_docx.py:48 | and every such line is one |
| MdShapes.TableSepParts | docs/02-design/_tooling/md_to_docx.py:49 | a separator is at least two cells of dashes with optional colons, spaces allowed, between pipes, an outer pipe allowed on either side |
| MdShapes.TableSepWhole | docs/02-design/_tooling/md_to_docx.py:49 | and every such line is one |
| MdShapes.BulletParts | docs/02-design/_tooling/md_to_docx.py:50 | a bullet is its indentation, a dash or star, spaces, and the content that is captured |
| MdShapes.BulletWhole | docs/02-design/_tooling/md_to_docx.py:50 | and every such line is a bullet with that indentation and content |
| MdShapes.NumberedParts | docs/02-design/_tooling/md_to_docx.py:51 | a numbered item is its indentation, digits, a dot, spaces, and the content that is captured |
| MdShapes.NumberedWhole | docs/02-design/_tooling/md_to_docx.py:51 | and every such line is one with that indentation and content |
| MdShapes.QuoteText | docs/02-design/_tooling/md_to_docx.py:52 | a quote's content is what follows the mark, less one space |
| MdShapes.CellsAre | docs/02-design/_tooling/md_to_docx.py:243-251 | the cells of a table line are the pieces between its pipes, trimmed; spaces around the line and any number of outer pipes do not count |
| MdShapes.PiecesAre | docs/02-design/_tooling/md_to_docx.py:243-251 | any pieces without pipes are those of the line they make up |
| MdShapes.PiecesRejoin | docs/02-design/_tooling/md_to_docx.py:243-251 | and every line is its pieces with pipes between them |
| MdShapes.JoinAppend | docs/02-design/_tooling/md_to_docx.py:342-395 | lines are joined with one space between neighbours |
| MdShapes.ParagraphText | docs/02-design/_tooling/md_to_docx.py:375-396 | a paragraph's text is its lines so joined, from the first on |
| MdShapes.QuotedText | docs/02-design/_tooling/md_to_docx.py:329-346 | a quote's text is the contents of its lines so joined, each in its place |
| MdShapes.HeadingEmitted | docs/02-design/_tooling/md_to_docx.py:310-320 | a heading line with n hashes emits a heading of level n with its text |
| MdShapes.BulletEmitted | docs/02-design/_tooling/md_to_docx.py:348-357 | a bullet is nested from two characters of indentation on and has its content |
| MdShapes.NumberedEmitted | docs/02-design/_tooling/md_to_docx.py:359-368 | and so is a numbered item |
| Transforms.BlanksToMarkers | services/learning/scripts/migrate_canonical_payloads.py:72-82 | the counting replacement equals the specified marking |
| Transforms.NoBlankLeft | services/learning/scripts/migrate_canonical_payloads.py:72-82 | no `[BLANK]` is left in any template |
| Transforms.MarkAround | services/learning/scripts/migrate_canonical_payloads.py:72-82 | any template, braces or not, is copied up to its first blank, which becomes the next marker, and what follows is marked from the next number on |
| Transforms.MarkNothing | services/learning/scripts/migrate_canonical_payloads.py:72-82 | a template without blanks is copied |
| Transforms.MarkersAreNumbered | services/learning/scripts/migrate_canonical_payloads.py:72-82 | in a brace-free template the markers read 1..n, one per blank |
| Transforms.UnmarkMark | services/learning/scripts/migrate_canonical_payloads.py:72-82 | mapping the markers back restores a brace-free template |
| Transforms.BlanksMatchMarkers | services/learning/scripts/migrate_canonical_payloads.py:151-164 | the blank ids answer to the markers in order if and only if there is one list of answers per blank |
| Transforms.AnswersStayWithBlank | services/learning/scripts/migrate_canonical_payloads.py:151-164 | the i-th marker of the body asks for exactly the i-th list of answers of the seed |
| Transforms.MatchKeepsPairs | services/learning/scripts/migrate_canonical_payloads.py:111-117 | looked up through the generated ids the canonical payload pairs exactly the seed's texts, repeated ones included |
| Transforms.MatchColumns | services/learning/scripts/migrate_canonical_payloads.py:111-117 | the columns list the texts in seed order and share no id |
| Transforms.SequenceKeepsOrder | services/learning/scripts/migrate_canonical_payloads.py:120-125 | the canonical order spells out the seed's items in order |
| Transforms.ClassificationFrom | services/learning/scripts/migrate_canonical_payloads.py:128-138 | raises if and only if an item names an undeclared category, otherwise builds the canonical payload |
| Transforms.LastIndexIsLast | services/learning/scripts/migrate_canonical_payloads.py:130 | a repeated category goes by the id of its last place |
| Transforms.ClassificationKeepsAssignment | services/learning/scripts/migrate_canonical_payloads.py:128-138 | every item ends up, by text, in its seed category, repeated categories included |
| Migration.TakeRow | services/learning/scripts/migrate_canonical_payloads.py:272-300 | the body with its early continues counts the row under exactly one of skip, already, ok and fail, and queues an update only for a rewrite that validates |
| Migration.Migrate | services/learning/scripts/migrate_canonical_payloads.py:271-300 | the loop's counters and update list are the per-type tallies and rewrites of the rows; a type has counters iff it occurs |
| Migration.VerdictExplained | services/learning/scripts/migrate_canonical_payloads.py:272-300 | a row is skipped, already canonical, fixed or failed in exactly the stated cases; the rewrite is given the row's own payload and its own stem, "Question" if it is empty or missing |
| Migration.CountersCount | services/learning/scripts/migrate_canonical_payloads.py:271-300 | each counter is the number of rows of its type that came out that way |
| Migration.TotalsAddUp | services/learning/scripts/migrate_canonical_payloads.py:271-300 | per type total = ok + already + skip + fail |
| Migration.UpdatesAreTheOks | services/learning/scripts/migrate_canonical_payloads.py:294-296 | there are as many updates as the ok counters of all types together |
| Migration.AppliedRun | services/learning/scripts/migrate_canonical_payloads.py:309-314 | an applied run gives each fixable row a payload that validates for its type and leaves every other row as it was |
| Migration.SecondVerdict | services/learning/scripts/migrate_canonical_payloads.py:280-283 | a second run finds each rewritten row canonical and judges all others as before |
| Migration.SecondRunIsQuiet | services/learning/scripts/migrate_canonical_payloads.py:271-314 | a second applied run writes nothing; already' = already + ok, with equal total, skip and fail |

## Left out

- AuthProtocol.Step: `verifyOtp` and `completeSso` end like a login and are not separate events; `register`, password reset and `ssoUrl` touch no session state.
- AuthProtocol.NoTokenSentTwice: speaks of bodies of `/auth/refresh`; the HttpOnly cookie is the server's business and `logout` may send the token again.
- AuthClient.Client.OnLoginReply: nothing is claimed about the presence flag matching the tokens, as an overlapping restore may clear it.
- AuthClient.MemoryTokenStorage.Set: the memory store only; several tabs, quota errors, reloads and malformed JSON in `localStorage` are not modelled.
- ApiClient.Request: `onError` and `onSessionExpired` callbacks that throw, aborts, headers and request bodies; real numbers stand for the floating-point pauses.
- FlagProtocol.BoundedStaleness: assumes a bound on the time from the start of a fetch to its put, which the HTTP timeout suggests but the scheduler does not promise; `Connect` and `Close` and the logging hook's panics are not modelled.
- ExamAnswers.NoCodeIsLost: the AI's lists are taken to repeat no code; editing names, titles and pools touches no code and is no action of the session; a page reload is not modelled.
- ExamReview.LandedDistinct: the missing code of a row written past the end is the empty string here, where the code leaves it undefined; an index further out leaves holes in the array, which are headerless rows here and make later loops of the original fail.
- JsonLens.SetFrame: array keys that are not digits (`length`, `-1`, `1e3`), indices from 2^32 - 1, names inherited from `Object.prototype`, strings as intermediate nodes and the order of object keys are not modelled.
- TranslationVerify.Screen.SaveEdit: requires a path with at least one segment, as the original recurses for ever on an empty one; two edits saved before the screen redraws would both start from the same captured payload.
- PathText.ExpandedPathsResolve: one wildcard per pattern; with several the code expands only the last, and so does the model.
- MdBlocks.ConvertFile: inline rendering of block texts, styles and the docx file itself are not part of the blocks; quotes are raw text as in the code.
- MdBlocks.BlankIsEmpty: digits and word characters are the ASCII ones.
- Transforms.BlanksMatchMarkers: scores, match modes and `str()` of answers are omitted; the remaining `_t_*` rewrites, `_slug` and `_pad` are field renamings without state.
- Migration.AppliedRun: row ids are distinct (a primary key) and a payload survives its JSON round trip through the database; the report and error samples are not modelled.
- Selection.ResolveAllMatching: `toggle`, `selectAllOnPage` and `clearPage` are one set operation each and would only add easy members.
- HTTP, NATS, Postgres, docx writing, React rendering, routing and the rest of the repository.
