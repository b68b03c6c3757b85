# Verified model of the 0G private-computing client

The client seals a request to a provider enclave, walks a list of fallback candidates under a time budget,
opens and checks what comes back, and decides which providers to trust from an attestation event log, an
on-chain registry and its own caches. This project models the stateful decisions of that client and proves
what they promise over whole runs.

- `Attempts`, `Walking`, `WalkOrder`, `WalkSafety`: one attempt against one provider (buffered, streaming,
  asynchronous submit), and the budgeted walk with one re-key per candidate that the three calls share.
- `Sse`: the reader and the writer of server-sent events.
- `Rtmr3`, `RuntimeStates`, `UpstreamSets`, `Text`, `Utf8`: the RTMR3 event log, its replay, the runtime records folded from
  it and their grammars.
- `MrConfig`, `Json`: the candidate documents for mr_config_id and their key-sorted JSON.
- `SignerCache`, `SignerCacheRuns`, `Sweeping`: the cache of on-chain signers, for one caller and for many.
- `RateLimiters`, `RetryGates`: the keyed rate limiter, the gate over preview retries and the retry loop.
- `ReleaseJudges`: background release checks with slots, and the callers that await them.
- `IdentityStores`: the record of verified providers with its two writers.
- `Grounding`, `GroundingRates`, `LiveChecks`: from a routed candidate to a provider whose signer the chain
  acknowledges, and what that costs in live checks, for one caller and for many.
- `Abi`: the decoders of the registry's return, under 64-bit wrap-around.
- `ToolFold`: the fold of Anthropic `tool_addition` blocks.

Conventions. A byte is a `char` (in `Abi`, a number below 256). Times are integers, and a clock that a run needs to be
non-decreasing is said to be so in the contract. What lies outside the client (network replies, cryptography, the
caller's context, the frame handler) is a total function over which every theorem quantifies; in the walk it
is also given the number of the call, so answers need not agree with each other. Digests are free terms, so
equal digests mean equal inputs and no digest is the zero register. A method is proved equal to a function, and the
theorems are lemmas about that function. In the concurrent models (`SignerCacheRuns`, `ReleaseJudges`, `LiveChecks`) each section
under a mutex, clock read, channel operation and outside answer is one step, and a theorem is about every sequence of
steps. `RateLimiters`, `RetryGates` and `IdentityStores` take a whole method as one step; where the source reads its
clock before it locks, a step of the first and the last has both times, and only those under the lock are ordered.

Where the code and its documentation differ, or a claim needs a condition, the project follows the code:

- A handler of streamed frames that itself returns a stale-key 409 makes the walk re-key and deliver a second
  provider's frames after the first's. `OneSourceMeans` shows that this is the only way, for all handlers.
- The register determines the event log only up to where a colon separates name and payload
  (`ColonMovesTheBoundary`). `OnlyLogOfItsRegister` says exactly how far over byte strings, `OnlyServableLogOfItsRegister`
  over logs whose names are valid UTF-8, as served ones are.
- `count=0` with a trailing line feed is a second spelling of the empty upstream set (`ParseAccepts`).
- With a negative grace the signer cache sweeps entries that are still fresh (`NegativeGraceShows`, `CapsNeverShow`).
- The url decoder differs from one over unbounded numbers on the bytes whose two offsets add up past 2^64 and, wrapped,
  point at a length word whose string lies inside the bytes, and on no others (`UrlWithinBounds`,
  `WrappedOffsetIsFollowed`).
- An event whose payload holds a line feed or ends in a carriage return, or that has a line over the cap, does not
  survive writing and reading, and every other does (`ReadWritten`, `ReadAnnounced`).
- The identity store mirrors one without a cap exactly until a write brings a key the store does not hold while live
  keys fill the cap, or, from a sweep, has read its clock before the expiry of a shielded record that the store has let
  go of and gets the lock after it (`CapDoesNotShow`, `StraddlingShows`).

## Model

| member | source | states |
|---|---|---|
| Attempts.Receive | client/core/stream.go:169-331 | the receive loop, with committed, sawFinal, opener, binder and frame index as variables, computes the recursion over payloads that all stream theorems are about |
| Attempts.TakeFrame | client/core/stream.go:242-330 | one frame: decoded, metadata read, opened by the opener the first frame set up and at its own sequence number, bound, delivered; every failure says whether a fallback is still open |
| Attempts.Stream | client/core/stream.go:132-194 | one streaming attempt up to the loop: which statuses fall back and which end the walk |
| Attempts.PumpEndsWell | client/core/stream.go:169-331 | from any point of the loop: what was delivered is the leading payloads in order, each decoded, opened at its own number under one context, bound and taken; and it stopped exactly because the handler refused the last frame, the next payload is no such frame, the reads broke, or EOF or [DONE] was reached, with the failure, the fallback and the time that go with it |
| Attempts.StreamOnceDelivers | client/core/stream.go:132-331 | the same for a whole attempt and the one reply it can stream from |
| Attempts.StreamOnceMeans | client/core/stream.go:132-331 | a streaming attempt succeeds exactly when its call is answered 200 with an event stream (and the binder starts, with verification on) and every payload up to EOF or [DONE] is delivered and taken, one of them final, with the fetched signature the provider's over exactly those frames when verification is on |
| Attempts.StreamOnceFallsBack | client/core/stream.go:113-331 | a streaming attempt leaves the next candidate open exactly when its reply is a 429, a 5xx, a 200 that is no event stream, or a stream that ends before a frame can be delivered with the caller still there; and exactly when it fails so having delivered nothing |
| Attempts.CompleteOnceFallsBack | client/core/client.go:805-918 | a buffered one exactly when its reply is a 429, a 5xx or a 200 that does not open; it fails as a stale key exactly when its reply is a 409 that says so |
| Attempts.SubmitOnceFallsBack | client/core/async.go:101-147 | an asynchronous one exactly when its reply is a 429 or a 5xx, likewise |
| Attempts.FailuresTell | client/core/client.go:805-893 | in all three modes an attempt without an answer to use reports that it could not be sealed or sent, or the very status and error it was refused with |
| Attempts.CompleteOnceTakes | client/core/client.go:805-893 | a buffered attempt takes the time of its call, and of the signature exactly when it comes to fetching one |
| Attempts.SubmitOnceTakes | client/core/async.go:101-147 | and a submit that of its call |
| Attempts.PumpStale | client/core/keyrefresh.go:70-92 | a stream can only fail as a stale-key 409 if the frame handler returned one |
| Attempts.StreamOnceStale | client/core/keyrefresh.go:118-139 | with a handler that never does, an attempt that fails as a stale key has delivered nothing |
| Attempts.CompleteOnceMeans | client/core/client.go:805-893 | a buffered attempt returns a text exactly when its own reply is a 200 that opens to it and, with verification on, is signed by the provider's signer over that very reply |
| Attempts.SubmitOnceMeans | client/core/async.go:101-192 | a submit returns a job exactly when its call is answered by a 2xx of that status that is not sealed and names a job and the pinned provider, and then that answer with only jobId rewritten, to the user id of that job; after any 2xx it neither falls back nor reads as a stale key |
| Walking.CandidateWalk.Provider | client/core/resolve.go:133-153 | materialization under what is left of the budget, charged with what it took; refused without a call when nothing is left |
| Walking.CandidateWalk.Refresh | client/core/keyrefresh.go:97-109 | the same for a key re-read |
| Walking.NothingLeft | client/core/resolve.go:133-153 | the list is asked exactly when there is budget left |
| Walking.CandidateWalk.Exhausted | client/core/resolve.go:119-162 | true exactly when the defaulted budget is spent |
| Walking.WalkErr.Record | client/core/client.go:142-146 | keeps the new failure unless one of a higher tier is held |
| Walking.Rekey | client/core/keyrefresh.go:143-163 | a provider to seal to again only when the list can re-read keys, the re-read succeeded and the key changed |
| Walking.RunRekeying | client/core/keyrefresh.go:118-139 | the loop of attempts at one candidate computes the recursive walk step, charging and recording each failure |
| Walking.Run | client/core/client.go:728-793 | the candidate loop, shared in form by the three calls, computes the recursive walk |
| WalkOrder.WalkIsOrdered | client/core/client.go:728-793 | the course of a walk: candidates are asked for in order, each with budget left and the caller there; exactly those the list prepares are tried, a second time at once exactly when the first was refused for a stale key and a re-read gives another; every attempt followed by another left the next candidate open by its reply; and the walk ends with a success, with a failure that neither its reply nor a stale key leaves open, and otherwise exactly because the caller had gone, the budget was spent, or the list was at its end |
| WalkOrder.RekeyingOrder | client/core/keyrefresh.go:118-139 | a candidate adds one attempt, or two, the second exactly when the first was refused for a stale key, the caller and the budget allow a re-read, and it gives another key |
| WalkOrder.WalkSealsToListed | client/core/client.go:728-768 | each provider attempted is what the list gave by the call just before, preparing the candidate or re-reading it past the key just refused, and the end noted is the attempt's own |
| WalkOrder.AttemptFallsBack | client/core/client.go:895-918 | in each of the three modes an attempt asks for a fallback exactly over such a reply, which is exactly over such a failure |
| WalkOrder.WalkMovesOnly | client/core/client.go:728-793 | a walk goes on after an attempt only over such a reply or a stale key; any other, such as another 4xx or a bad signature, ends it |
| WalkOrder.WalkReports | client/core/client.go:115-154 | a failed walk reports the last provider that answered; with none, why the last candidate asked for could not be prepared, as the budget cut if that ended the walk, or that there were no candidates |
| WalkOrder.KeepsTheLatestOfTheBest | client/core/client.go:142-146 | over any list of failures, what is kept is the latest of the highest tier |
| WalkOrder.WalkTakesBudgetPlusOne | client/core/resolve.go:64-105 | if preparations keep their deadlines and attempts take at most T, a walk over any number of candidates takes at most the budget plus T |
| WalkSafety.WalkFromSilence | client/core/stream.go:36-122 | with a handler that never returns a stale-key 409, all that was delivered came from the last attempt, whole and signed for if it succeeded |
| WalkSafety.SecondAttemptFollows | client/core/keyrefresh.go:118-139 | for every handler that does, surroundings in which a second attempt's frames follow the first's |
| WalkSafety.OneSourceMeans | client/core/stream.go:66-122 | so one source for every list, clock, provider and caller exactly when the handler never returns a stale-key 409 for a frame it was the first to refuse |
| WalkSafety.CompleteReturnsGenuine | client/core/client.go:700-793 | Complete returns only the text of its last attempt's reply, vouched for by the provider that attempt was sealed to |
| WalkSafety.SubmitMakesOneJob | client/core/async.go:34-96 | at most one answer in a whole walk is a 2xx, it is the last attempt's and decides the walk, and a returned job names the provider sealed to |
| Sse.SseReader.Next | client/core/stream.go:346-374 | the scan loop computes the recursive reader, and leaves the rest to be read |
| Sse.EventIsGathered | client/core/stream.go:346-374 | whatever lines are sent, up to a blank line or the end of the stream their data is one event, the payloads of the data lines joined by line feeds; lines without data are passed over |
| Sse.LastLine | client/core/stream.go:346-374 | the last line of a stream needs no line feed |
| Sse.SurvivorIsRead | client/core/stream.go:346-374 | a one-line payload under the cap that does not end in a carriage return is read back whatever follows it |
| Sse.OnlySurvivorsAreRead | client/core/stream.go:339-374 | and no other payload is |
| Sse.EventIsRead | client/openaiproxy/proxy.go:625-634 | an event under a one-line name is read as its payload exactly when it survives, its name's line included |
| Sse.ReadWritten | client/openaiproxy/proxy.go:625-634 | for lists of events, named or not: reading what was written gives the payloads and then the end exactly when every event survives |
| Sse.ResponseEventName | protocol/wire/response.go:244-265 | no name that is written holds a line feed |
| Sse.NameMeans | protocol/wire/response.go:244-265 | a name is written exactly when the surface has none or the frame's kind is known and holds no line break |
| Sse.AnnouncedMeans | client/openaiproxy/proxy.go:561-622 | the front end writes the frames up to the first without a name, and closes with that refusal or the stream's failure as an error event if its headers are out, else, on a surface without names, with [DONE] |
| Sse.ReadAnnounced | client/openaiproxy/proxy.go:561-634 | so the round trip holds for whatever the front end writes, frames under their kinds, the error event of a failed stream or a refused name, and [DONE], exactly when every event survives |
| Rtmr3.ReplayRtmr3 | client/evidence/rtmr3.go:225-252 | the replay loop gives the decoded RTMR3 entries when they hash to the register, and the error otherwise |
| Rtmr3.ReplayMeans | client/evidence/rtmr3.go:225-252 | a replay reads a log exactly when it is the RTMR3 entries, all and in order, decoded, and hashes to the register; otherwise it names the first payload that is not hex, or that the log does not replay |
| Rtmr3.ReplayedInjective | client/evidence/rtmr3.go:225-252 | two logs replay to one register exactly when their entries hash the same bytes one by one |
| Rtmr3.SameRegisterSameLog | client/evidence/rtmr3.go:160-252 | with colon-free names, equal registers mean equal logs |
| Rtmr3.ServedLogsAgree | client/evidence/rtmr3.go:225-252 | the same for logs as served, whatever they hold for other registers |
| Rtmr3.ColonMovesTheBoundary | client/evidence/rtmr3.go:160-172 | two different logs with a colon in a name that replay to one register |
| Rtmr3.OnlyLogOfItsRegister | client/evidence/rtmr3.go:160-252 | over byte strings, a log is the only one of its register exactly when no name or payload in it holds a colon |
| Rtmr3.OnlyServableLogOfItsRegister | client/evidence/rtmr3.go:160-252 | among logs with valid UTF-8 names, one is the only one of its register exactly when no name holds a colon and no payload has one after a valid UTF-8 beginning |
| RuntimeStates.ParseImageAccepts | client/evidence/rtmr3.go:342-364 | the image records accepted are exactly those a well-formed record prints to, read as that record |
| RuntimeStates.ParseInstanceAccepts | client/evidence/rtmr3.go:277-285 | the instance records that are read: a name without blanks, one space, and 64 lowercase hex digits or unknown |
| RuntimeStates.Reader.ApplyRecord | client/evidence/rtmr3.go:255-290 | one record applied in place to the state, or refused |
| RuntimeStates.ReadRuntimeEntries | client/evidence/rtmr3.go:193-212 | the loop over the runtime entries computes the recursive fold |
| RuntimeStates.ReadRuntimeState | client/evidence/rtmr3.go:178-213 | replay, then the fold after the first system-ready entry |
| RuntimeStates.ReadLogDescribes | client/evidence/rtmr3.go:178-290 | a log is read exactly when it has a system-ready entry and every later entry is acceptable; the state then holds the last record of each kind, exact counts, and earlier 0G names only as ignored |
| RuntimeStates.ReadLogRefuses | client/evidence/rtmr3.go:178-213 | a log that is refused is so for the first entry after system-ready that is not acceptable, named by its place, for its type or its record; or for having no system-ready |
| RuntimeStates.DescribesUnique | client/evidence/rtmr3.go:178-290 | that description determines the state |
| RuntimeStates.SameRegisterSameState | client/evidence/rtmr3.go:178-252 | served logs with colon-free names that replay to one register give one state |
| RuntimeStates.AppendingKeepsFindings | client/evidence/rtmr3.go:530-582 | appending records to an accepted log never removes an engine finding or an unknown-record gap |
| RuntimeStates.ReportMeans | client/evidence/rtmr3.go:530-582 | the whole report on the log's own last records: the judgement of what runs, whether its keys are the quote's, and every finding and every gap exactly when there is cause for it |
| RuntimeStates.DedupeMeans | client/evidence/rtmr3.go:584-595 | dedupe keeps the first occurrence of every name, in order |
| RuntimeStates.CleanMeans | client/evidence/rtmr3.go:530-582 | a report is empty exactly when the log has no engine or unknown record, its last image is an accepted release under the quote's keys, its last upstream set is stated and no instance's last change aborted |
| UpstreamSets.ParseUpstreamSet | client/evidence/rtmr3.go:379-449 | the one pass over the lines computes the recursive parser |
| UpstreamSets.ParseRefuses | client/evidence/rtmr3.go:379-449 | what is wrong with the set as a whole is reported first: a line too long, no count, too many members, or not as many as counted, each exactly then |
| UpstreamSets.ReadIsPrinted | client/evidence/rtmr3.go:397-447 | a member line that is accepted is the printing of one well-formed member there was room for |
| UpstreamSets.AdmitsAllMeans | client/evidence/rtmr3.go:385-447 | the running bookkeeping admits members exactly when together they are unique and alike in naming a provider |
| UpstreamSets.ParsePrinted | client/evidence/rtmr3.go:366-449 | every well-formed set parses back to itself |
| UpstreamSets.ParseAccepts | client/evidence/rtmr3.go:379-449 | a payload is accepted exactly when a well-formed set prints to it or it is the second spelling of the empty set, and is read as the set that prints to it |
| Json.OneAscendingListing | client/evidence/mrconfig.go:232-244 | a set of keys has one ascending listing, so insertion order does not show |
| Json.JcsInjective | client/evidence/mrconfig.go:236-244 | distinct documents of plain strings have distinct key-sorted texts |
| MrConfig.BootEvents | client/evidence/mrconfig.go:123-184 | the loop over boot events computes the recursive reader |
| MrConfig.KeyProviderMeans | client/evidence/mrconfig.go:63-65 | a key-provider event is read exactly when it is JSON, names one of the four known providers, and its id is hex |
| MrConfig.ReadBootMeans | client/evidence/mrconfig.go:123-184 | it returns b exactly when no once-only event comes twice before system-ready, the key-provider event parses, the compose hash is 32 bytes and b holds what the entries say |
| MrConfig.V3Candidates | client/evidence/mrconfig.go:187-230 | one text per subset of the logged optional fields, in the order of the masks |
| MrConfig.CandidatesAreAllowed | client/evidence/mrconfig.go:187-230 | the candidates are exactly the documents with the mandatory fields and any of the optional ones at their logged values |
| MrConfig.CandidateTexts | client/evidence/mrconfig.go:187-244 | they are at most sixteen and their texts are pairwise distinct |
| MrConfig.ComposeHashOf | client/evidence/mrconfig.go:72-98 | replay, boot events and search, in that order of errors |
| MrConfig.EstablishedMeans | client/evidence/mrconfig.go:72-110 | a compose hash is established exactly when some allowed document of the replayed boot hashes to the id, and it is the logged one |
| MrConfig.OneIdOneComposeHash | client/evidence/mrconfig.go:72-110 | one id never establishes two compose hashes, from whatever logs |
| Sweeping.SweepExpired | client/chain/cache.go:209-215 | deletes exactly the entries past their deadline, in whatever order the map is ranged over |
| SignerCache.CachedRegistry.Acknowledged | client/chain/cache.go:97-126 | one call computes the reading and the new maps: a fresh hit, a cooling-down failure, the grace window, or a lookup |
| SignerCache.CachedRegistry.RefreshLive | client/chain/cache.go:135-154 | the same for a live re-read, which notes its failure |
| SignerCache.CachedRegistry.StoreEntry | client/chain/cache.go:295-303 | a new key under the cap, after a sweep when full, or declined |
| SignerCache.AcknowledgedMeans | client/chain/cache.go:97-126 | the chain is asked exactly when no fresh reading is held and no failure cools down; what it gives is answered without a flag; when it is not asked or fails, the reading held is answered marked stale exactly as long as the grace lasts, and past it the error |
| SignerCache.RefreshMeans | client/chain/cache.go:135-141 | a live read answers what the chain gives, whatever is held |
| SignerCache.ServeLeaves | client/chain/cache.go:143-303 | what a call that asked leaves: its reading until ttl and no failure, or the failure unless the caller had gone; other keys lose only what is past its deadline |
| SignerCache.OutageIsBridged | client/chain/cache.go:97-126 | over any run, while the chain fails for a key every call that reads it through the cache is answered with the reading held until the grace is over, whatever is asked of other keys and however they are swept |
| SignerCache.CapsDoNotShow | client/chain/cache.go:171-303 | as long as no write is declined, sequential calls are answered as by maps without a cap that are never swept |
| SignerCache.NegativeGraceShows | client/chain/cache.go:194-215 | with a negative grace a store sweeps a reading that is still fresh |
| SignerCache.CapsNeverShow | client/chain/cache.go:97-303 | so the caps never show, over all runs, exactly when the grace is not negative |
| SignerCacheRuns.NextKeeps | client/chain/cache.go:97-303 | every step of any caller or lookup keeps the invariant |
| SignerCacheRuns.AnswersAreHonest | client/chain/cache.go:97-286 | in every interleaving each reading is the chain's for its key; unflagged ones come from a lookup published after the call began, cached ones are inside ttl, stale ones inside ttl and grace; live reads carry no flag; an error is one the chain gave for the key, or a departed caller's own cancellation, and a caller that reads the cache ends in one only past the grace of what was held at its last look |
| SignerCacheRuns.LooksMean | client/chain/cache.go:97-126 | what a caller does next by what is held at that very step: a fresh reading is answered, a lookup joined exactly when there is none and no failure cools down, a reading in its grace answered instead of an error |
| SignerCacheRuns.CallersCanMove | client/chain/cache.go:232-273 | nobody is stuck: a caller joins the lookup under way for its key or starts one; one that waits reads exactly once it is published, and until then the lookup can go on, or the caller, if gone, give up |
| SignerCacheRuns.ColdCallGetsTheAnswer | client/chain/cache.go:97-273 | a call that finds no fresh reading and no failure cooling down, with no lookup under way, starts one and returns the chain's reading, unflagged, by the eleven moves named |
| SignerCacheRuns.MapsStayBounded | client/chain/cache.go:171-303 | in every interleaving both maps stay within 4096 and hold only what the chain said |
| SignerCacheRuns.OneLookupPerKey | client/chain/cache.go:232-273 | in every interleaving one lookup per key at a time |
| RateLimiters.RateLimiter.Allow | client/route/ratelimit.go:40-59 | grants and stamps, or refuses inside a window or at a full map of live windows |
| RateLimiters.RateLimiter.Reschedule | client/route/ratelimit.go:65-82 | brings the next time forward, never back, and adds no key at the cap |
| RateLimiters.RefusalMeans | client/route/ratelimit.go:40-59 | a refusal is the key's own live window, or a cap's worth of others |
| RateLimiters.GrantStamps | client/route/ratelimit.go:40-59 | a grant is stamped for its window, and every other time still ahead is kept |
| RateLimiters.RescheduleMeans | client/route/ratelimit.go:65-82 | after a reschedule the key is granted exactly when it would have been, or once the delay has passed; a key without a time gets one if there is room; others keep theirs |
| RateLimiters.MapStaysBounded | client/route/ratelimit.go:40-100 | the map never exceeds 4096 keys over any run |
| RateLimiters.GrantsAreRare | client/route/ratelimit.go:40-100 | in any span of length L one key is granted at most L div (min(w, d) - lag) + 1 times, whatever others do, however it is swept, refused or rescheduled, and in whatever order clock readings at most lag old arrive at the lock; with none old, L div min(w, d) + 1 |
| RateLimiters.EagerGrants | client/route/ratelimit.go:40-59 | and that last bound is attained |
| RetryGates.OffMeansTripped | client/route/ratelimit.go:143-176 | retries are off exactly within ten seconds of the last trip, if nothing has succeeded since |
| RetryGates.TripsWhen | client/route/ratelimit.go:151-162 | the gate trips at every fifth noAnswer in a row and at nothing else |
| RetryGates.PreviewsTurnRetriesOff | client/route/route.go:1825-1895 | over any calls, in the order they end, retries are off exactly within ten seconds of the last trip among what they told the gate: a success, no answer when retries ran out, nothing when refused or left |
| RetryGates.TripMeans | client/route/ratelimit.go:151-162 | a trip is preceded by noAnswer calls only, five in a row with its own |
| RetryGates.TripsArePaidFor | client/route/ratelimit.go:151-162 | trips times five never exceed noAnswer calls |
| RetryGates.SuccessReopens | client/route/ratelimit.go:171-176 | a success reopens the gate, and fewer than five failures after it never close it |
| RetryGates.Preview | client/route/route.go:1825-1895 | the retry loop computes its recursive form and what it does to the gate |
| RetryGates.PreviewMeans | client/route/route.go:1825-1895 | one to three attempts, the first whatever the gate says; a failure worth a retry is retried exactly when budget, gate and count allow and the caller stays, and else ends the call, at that time; the call ends within the budget and one attempt |
| ReleaseJudges.ReleaseJudge.MakeRoomLocked | client/route/runtimerelease.go:323-333 | at the bound drops everything not being checked and not accepted, and nothing else |
| ReleaseJudges.ReleaseJudge.Verdict | client/route/runtimerelease.go:239-265 | returns what is held, after sending for what is due |
| ReleaseJudges.ReleaseJudge.Complete | client/route/runtimerelease.go:271-273 | stores the answer and closes the entry's channel |
| ReleaseJudges.NextKeeps | client/route/runtimerelease.go:239-333 | every step keeps the invariant, drops or replaces no acceptance and reopens no channel |
| ReleaseJudges.ChecksAreBounded | client/route/runtimerelease.go:194-277 | in every run at most four checks hold a slot and one verifies per build, a build being checked stays in the map, the map stays within 1024, and each channel is closed once, by its own check |
| ReleaseJudges.AcceptedIsForGood | client/route/runtimerelease.go:239-333 | an acceptance held in some state is held unchanged in every later one |
| ReleaseJudges.HeldIsTheVerifiers | client/route/runtimerelease.go:268-277 | what is held for a build the verifier said of that build |
| ReleaseJudges.AwaitMeans | client/route/runtimerelease.go:284-316 | await returns with a live context only having found a verdict of the verifier's held |
| ReleaseJudges.WaitersAreWoken | client/route/runtimerelease.go:268-316 | a waiter's channel is closed, or belongs to a check of its build that closes it when the verifier answers |
| ReleaseJudges.StepMeans | client/route/runtimerelease.go:284-316 | await returns a verdict exactly when one is held at its look; with none it waits for the check under way for its build, or sleeps before it asks again |
| ReleaseJudges.SleepersWake | client/route/runtimerelease.go:302-316 | a sleeper asks again once its time has come, and a caller whose context ends may leave its sleep or its wait |
| ReleaseJudges.CompletedMeans | client/route/runtimerelease.go:268-277 | a completed check leaves its answer held as of now and nothing else changed, so that the build is due again exactly when that is no acceptance and a minute old |
| ReleaseJudges.AwaitGetsTheAnswer | client/route/runtimerelease.go:239-316 | a caller that awaits a build nobody holds, with a slot and room free, starts a check and returns with the verifier's answer to it, by the eight steps named |
| ReleaseJudges.CheckStartsWhen | client/route/runtimerelease.go:239-265 | a check starts exactly when asked for, with a slot and room free, none under way, and no verdict held or a non-acceptance a minute old |
| ReleaseJudges.OthersAreKept | client/route/runtimerelease.go:239-333 | sending for one build leaves what is held for the others, but for what may be dropped at the bound |
| IdentityStores.IdentityStore.Record | client/route/provideridentity.go:433-452 | writes unless shielded, keyless or without lifetime, making room for a new key at the cap |
| IdentityStores.IdentityStore.MakeRoomLocked | client/route/provideridentity.go:490-506 | drops the expired, and if that is not enough one of those closest to expiry |
| IdentityStores.IdentityStore.DelWarmed | client/route/provideridentity.go:473-484 | drops the record unless it is shielded |
| IdentityStores.IdentityStore.Get | client/route/provideridentity.go:508-526 | returns an unexpired record and drops an expired one |
| IdentityStores.RecordMeans | client/route/provideridentity.go:433-452 | what is recorded is read by its key until it expires, and all is recorded but what has no key or lifetime or is kept from a served record by the shield |
| IdentityStores.DeleteMeans | client/route/provideridentity.go:473-484 | a sweep's delete drops the record exactly when the shield does not hold it |
| IdentityStores.ReadMeans | client/route/provideridentity.go:508-526 | a read returns a record up to and at its expiry, and what it drops no later read would have returned |
| IdentityStores.StaysWithinCap | client/route/provideridentity.go:433-506 | the store never exceeds its cap, in whatever order clock readings arrive |
| IdentityStores.ServedRecordStands | client/route/provideridentity.go:376-484 | strictly before its expiry a served record is unchanged by any sweeps of other endpoints and any traffic of others, unless live keys fill the cap |
| IdentityStores.EvictionMeans | client/route/provideridentity.go:433-506 | a write loses a live record exactly when it brings a new key to a store whose live keys fill the cap, and then a soonest to expire |
| IdentityStores.CapDoesNotShow | client/route/provideridentity.go:433-526 | in whatever order clock readings arrive at the lock, the store mirrors one without a cap after each operation exactly when none of them brings a key it does not hold while live keys fill the cap or straddles the expiry of a shielded record it has let go of |
| IdentityStores.ReadsAlike | client/route/provideridentity.go:508-526 | and until one does, every get answers as a store without a cap |
| IdentityStores.DisturbanceIsRead | client/route/provideridentity.go:433-526 | after one operation on a mirror, some read at the lock's time differs exactly for such a write, a straddling one only while its own record lives |
| IdentityStores.StraddlingShows | client/route/provideridentity.go:433-526 | a run of five operations, none crowded, in which such a write makes the two answer differently |
| Grounding.Materialize | client/route/route.go:849-1041 | the statements that reassign key, signer and quote compute the function the theorems are about |
| Grounding.GroundIsFounded | client/route/route.go:1452-1510 | what a grounding concludes follows from one reading of that address, read live exactly when the cached one disagrees and the limiter lets it; a negative rests on a read past the cache, one that missed it, or a cached one when the limiter's table as found refuses the key; none only when the lookup failed |
| Grounding.FailedReadIsRetried | client/route/route.go:1465-1490 | a live read that failed is let again as soon as the backoff has passed |
| Grounding.ReverifiedMeans | client/route/route.go:1157-1188 | verifying a quote again fails exactly when the limiter's table refuses it or the verification fails, and otherwise gives the live quote |
| Grounding.FailedRecheckIsRetried | client/route/route.go:1157-1176 | and so is a verification that failed |
| Grounding.FreshIsAQuote | client/route/route.go:1062-1098 | what is sealed to is one verified quote of the endpoint, cached exactly when the cache holds one with another key than the one just rejected, and else verified, under the limiter exactly when the cache held the rejected key |
| Grounding.ReturnedIsGrounded | client/route/route.go:849-1041 | with verification and on-chain enforcement, a returned provider's key and signer are of one verified quote of its endpoint, the signer is the acknowledged one of a reading of its address, its record says so, and it was not refused when refusals are enforced |
| Grounding.QuotedMeans | client/route/route.go:878-903 | with quote verification on, the key is a verified quote's; with it off, what the endpoint says, which no mismatch rechecks |
| Grounding.MaterializeMeans | client/route/route.go:849-1041 | which candidates become providers, with which key, and what is recorded: exactly those that are usable, whose quote was had, that the chain does not bar under enforcement, and that are not refused when refusals are enforced; the record says what the chain check concluded |
| Grounding.ConcludeMeans | client/route/route.go:907-986 | a mismatch stands on a quote verified live, or on a cached one whose verification again was refused by the limiter's table, failed, or gave the same signer; the quote is replaced exactly when verifying it again gave another signer |
| Grounding.RefusalRestsOnEvidence | client/route/route.go:907-1003 | a no-match rests on a reading past the cache or that missed it, or on a cached one when the limiter, asked at that very call, refused a live read; and a mismatch on such a quote |
| GroundingRates.GroundKeeps | client/route/route.go:1452-1510 | a live read is noted exactly when one is made and gives the reading ruled on |
| GroundingRates.LiveChecksAreRare | client/route/route.go:1146-1188 | over any materializations one after another, in any span of length L one provider key costs at most L div 30s + 1 live reads of the chain, and one quote URL at most L div the shorter of 30s and the cache's lifetime + 1 verifications past the cache |
| LiveChecks.NextKeeps | client/route/route.go:1465-1490 | every step of any caller keeps the invariant: what was made was granted, and each grant is one caller's own |
| LiveChecks.EachCheckHasItsOwnWord | client/route/route.go:1465-1490 | a live check is made on the word of a grant for its own key on which none was made before |
| LiveChecks.CheckedWhenDue | client/route/route.go:1465-1490 | a caller asks by its clock reading and makes its live check exactly when the limiter grants the key |
| LiveChecks.FailureBringsForward | client/route/route.go:1474-1488 | after a check that failed the key is granted exactly when it would have been, or once the backoff has passed |
| LiveChecks.LiveChecksAreRare | client/route/route.go:1157-1188 | in every interleaving of callers, in any span of length L one key costs at most L div (min(window, backoff) - lag) + 1 live checks, lag being how long a clock reading may wait for the lock |
| Abi.DecodeService | client/chain/registry.go:395-433 | with 64-bit offsets it decodes exactly what a decoder over unbounded numbers does, and stays in bounds |
| Abi.ServiceMeans | client/chain/registry.go:395-433 | the layout it accepts, and no other: a struct of eleven words inside the bytes, the signer behind twelve zeros in word 9, acknowledged unless word 10 is all zero |
| Abi.UrlWithinBounds | client/chain/registry.go:441-477 | the url decoder agrees with one over unbounded numbers exactly when the two offsets do not wrap onto a string inside the bytes; the check it lacks is that both point inside |
| Abi.WrappedOffsetIsFollowed | client/chain/registry.go:441-477 | 128 bytes on which they differ |
| Abi.ServiceOfEncoded | client/chain/registry.go:376-433 | decoding the ABI encoding of any Service gives its signer and acknowledged flag |
| Abi.UrlOfEncoded | client/chain/registry.go:435-477 | and its url |
| Abi.UrlMeans | client/chain/registry.go:441-477 | without wrap-around the url is exactly the bytes behind the length word that word 2 of the struct points at, if all are inside |
| ToolFold.FoldToolAdditions | client/endpoint/anthropic.go:62-133 | the nested loops give the folded request exactly when the text has additions and no removal, it parses, some block adds, every addition names a tool and no message is emptied |
| ToolFold.KeptInOrder | client/endpoint/anthropic.go:90-121 | what a message keeps is its other blocks, all of them and in order |
| ToolFold.AddsFirsts | client/endpoint/anthropic.go:77-112 | tools is the old list followed by the first definition of each new name, in order of appearance |
| ToolFold.BroughtInOrder | client/endpoint/anthropic.go:86-112 | the definitions are those that stand in the messages, all of them, in the order they stand |
| ToolFold.FoldedTools | client/endpoint/anthropic.go:62-133 | so the folded tools are those the request had, then of the definitions in its messages the first of each new name |
| ToolFold.NothingLeftToFold | client/endpoint/anthropic.go:62-133 | no addition is left, and folding the result again finds nothing whatever its text |
| ToolFold.FoldChangesOnly | client/endpoint/anthropic.go:45-57 | all else is unchanged, and so is a request that cannot be folded |

## Left out

- HTTP, TLS, sockets, HPKE, signature recovery, quote and Sigstore verification: their answers are inputs.
- Metrics, log lines, header pass-through, response metadata and error texts, beyond which failure it is.
- The steps before the walk (resolving the list, generating the response key, the async-surface check).
- JSON decoding, the checks of `eventLogOf` on the reply's shape, hex spelling of the signer in `Abi`, and the canonical form of a provider key: values arrive decoded.
- `url.Parse` in the upstream-set grammar: a predicate on strings over which the theorems quantify.
- Buffering in the event reader: the scanner is modelled by the lines it yields and the line length it refuses.
- The order of lines in a runtime report: findings and gaps are sets.
- The internals of singleflight: joining, running and publishing are steps; in `Grounding` a joined flight's answer is an outside answer.
- The other small caches (quotes, public keys, collateral, provenance) and the submit semaphore: weaker copies of those modelled.
- SignerCache.CapsDoNotShow: is about calls that do not overlap; what holds under overlap is in `SignerCacheRuns`.
- WalkOrder.WalkTakesBudgetPlusOne: takes the attempt's time bound as given, because a stream that is delivering has none.
- GroundingRates.LiveChecksAreRare: takes materializations one after another under a clock that does not go back; overlapping callers are those of `LiveChecks`.
- Sse.ResponseEventName: which kinds a taxonomy knows is an input.
- RetryGates.PreviewMeans: exact timers; the pause is taken in full even when the caller leaves during it.
- Fairness of the scheduler: that a waiting caller is eventually run is not stated, only that nothing is left to wait for in vain.
