# Verification model

A Dafny model of the parts of this NestJS backend that hold protocols, timelines,
parsers and arithmetic, with proofs of what they promise over all inputs and all runs.

- **AI cost engine.** `MemoProtocol` is the memo cache as interleaved steps of
  writers, readers, clock and expiry over a shared Redis in which every operation
  may fail. `MemoSingleFlight` proves the lock and the outcome of a call, `MemoFollowers` who
  pays for a model call and how the others get its answer, `MemoFreshness` that no stale value is
  served, and `MemoStaleness` builds the runs where one is, so that the condition between the
  two is exact. `CanonicalJson` and `VersionKeys` show that the text of a key
  says everything about the key. `AceSettings`, `AceHistory` and `AceRevert` are the engine
  settings, their audit and the emergency revert; `AceEngine` runs several server processes
  with caches, loads in flight, a version counter and sticky modes; `AceDecision` follows a mode from
  the administrator to a new conversation; `AceService` is one process as it runs.
- **LLM turn guard.** `LlmSemaphore` is the FIFO semaphore against a log of events that
  alone says what fairness means; `LlmTurnGuard` puts guarded calls, nested turns and
  drain waits around it.
- **Captions.** `CaptionCatalog`, `CaptionFrames`, `AssSubtitle`, `WordBoxes` and
  `SubtitleExport` are a small compiler from timed words to segments, highlight
  intervals, video frames, ASS events and SRT/VTT text; `AssScreen` says what the ASS file shows
  at each moment.
- **Readers, checks and limits.** `StreamReaders` (server-sent events, sections 9.2.5 and
  9.2.6 of the WHATWG HTML standard, and ffmpeg progress), `RefundDestination` (Luhn, ISO/IEC 7812-1
  Annex B; IBAN, ISO 13616-1 with MOD 97-10 of ISO/IEC 7064), `FaAmounts`, `AmountReading`,
  `AmountSplits`, `PriceLeaks`, `PriceGuard` and `PriceSentences` (Persian amounts), `RateLimit`, `OtpLimits` and `EventPaging`. `JsText` holds the JavaScript text
  primitives they share.

Code that loops or changes fields is written as methods and classes whose `ensures`
equate the result with a specification function; the properties are lemmas about these
functions. Protocols are step functions, and a theorem about runs quantifies over all
sequences of possible steps.

Where a promise is false of the code, the code is kept, a lemma shows the input that breaks it,
and the exact condition under which it holds is proved: for the lock that is deleted without an
owner check, for version parts without product ids, for a price broken over two lines, for
a sticky stamped in the millisecond of a revert and a process that misses it, for an update whose
load has read an older row, for a revert that updates have pushed out of the audit, for audit entries about inherited property names and unknown parameters, for a card line
that opens with a unit, for settings that change during a load, for one-time codes sent long after
their checks and counters whose expiry was never set, for subtitle texts with empty lines, for a swap of card digits, and for two events of one time at a page boundary.

The condition of `MemoFreshness.Freshness` in words: a key holds one counter for each place of the
source list, without the source. Let `a` have stored a value and let `b` have the same key. Place
`i` is newer than place `j` in `a` if `b` reads at `i` what `a` reads at `j`, or if one of
them reads one source at both and `j` comes first. A source `x` is carried from `a` to `b` if such
steps lead from a place where `a` reads `x` to one where `b` reads it. Lists with the same
sources in any order carry all of them, so "the ids agree" is exact up to their order only.

The condition of `PriceLeaks.LeakRule` in words: read alone, the text leaks in three cases. A number at its
end still waits for a unit, and that number with the largest unit is not nothing, or no amount of
nothing stands in the text, or the number is linked to an amount above the bare toman whose sum is
not nothing. Or its last amount can be continued by «و», and the sum that ends with this amount is not
nothing. Or its last amount can be continued by a currency that moves it below the amount it is linked
to, whose sum is not nothing. An amount of nothing counts: it has to be allowed like any other.

Modelling choices:

- A string is a sequence of Unicode scalar values; lengths that the code counts in UTF-16
  units are counted so in `WordBoxes`. Times and prices that the code holds
  as floating-point numbers are exact reals; `Math.round` rounds halves up.
- `sha256` is taken to be injective: a memo key is the record of what is hashed.
  `JSON.parse` of an event is a function parameter, as are glyph shaping and text width.
- A Redis operation in the memo protocol either fails without effect or takes effect; a `SET` of the lock
  may take effect with its answer lost, and a lost answer of another operation leads to
  the same steps as one of the two. Memo entries may be evicted at any time; version counters
  are not, and lock keys go by expiry or `DEL` only.
- In `AceSettings` a property name is a datatype that sets apart the names that mean something
  to the code and those every object inherits; a function that would be stored as an old value
  is stored as nothing, the prototype itself as an empty object. Times are those of one clock.
- A load of the settings is two steps, the row and then the version, or one; a load that finds another
  one of its process in flight joins it. A failed read of the row does not fail the load, so undo
  answers "nothing to undo" after it, as the code does (ace-config.ts:88-93, 302).
- Where comments and code differ the code is followed: the comment at ace-config.ts:283 says that
  stickies are ignored after a revert, while one of the same millisecond is honoured; the comment at
  memo-cache.ts:38 speaks of single flight, which holds until a lock is taken over from an owner past its lease.

## Model

| member | source | states |
|---|---|---|
| MemoFreshness.Freshness | src/common/ai-cost-engine/memo-cache.ts:51-112 | in every interleaving of writers, readers, expiry and Redis failures, a call that starts after a commit of one of its sources is announced returns nothing computed from older data of that source, as long as every other call of the run that can have its key carries the source to it, which is decided by the two source lists alone |
| MemoFreshness.StoreFreshness | src/common/ai-cost-engine/memo-cache.ts:51-112 | for changes of the store and of its knowledge base this holds of every run without any condition |
| MemoFreshness.SameKeyMeans | src/common/ai-cost-engine/memo-cache.ts:53 | two requests can have one key exactly if call site, owner, input and the kinds of their sources agree, and then they have it at all equal counters |
| MemoStaleness.StaleRun | src/common/ai-cost-engine/memo-cache.ts:51-76 | where a source is not carried, a run is built in which a call that starts after the announced change is given the value that the other request computed before it |
| MemoStaleness.FreshExactly | src/common/ai-cost-engine/memo-cache.ts:51-112 | over all runs with calls for two requests that can share a key, those for the second miss no change of a source if and only if it is carried to it from the first |
| MemoStaleness.ProductIdsAgree | src/common/ai-cost-engine/version-keys.ts:26 | the same for all sources and in terms of ids: if and only if both name the same products, in whatever order, when the second names none twice |
| MemoStaleness.OrderDoesNotMatter | src/common/ai-cost-engine/version-keys.ts:26 | requests that list the same sources in another order are safe for each other, repeats or not |
| MemoStaleness.OtherProductIsStale | src/common/ai-cost-engine/version-keys.ts:26 | a product that only the second request names: a run serves it a value that has never seen that product, after a change of it was announced |
| MemoStaleness.ProductsShareKeys | src/common/ai-cost-engine/version-keys.ts:26 | version parts carry no product ids: requests that differ only in them, not in their number, can share a key |
| MemoSingleFlight.SingleFlight | src/common/ai-cost-engine/memo-cache.ts:78-112 | in a run a key never has two owners if and only if no call takes its free lock while an owner past its 15 s lease is still at work |
| MemoSingleFlight.DeletesOwnLock | src/common/ai-cost-engine/memo-cache.ts:104-112 | in a run every owner only ever has its own lock to delete if and only if no `SET`, answered or not, replaces the lock of an owner past its lease |
| MemoSingleFlight.InLeaseIsSafe | src/common/ai-cost-engine/memo-cache.ts:78-112 | both hold while every owner of the key finishes inside its lease |
| MemoSingleFlight.SlowOwnerBreaksSingleFlight | src/common/ai-cost-engine/memo-cache.ts:108 | the lock is deleted without an owner check: from a computation that outlives its lease a possible run leads to two owners of one key |
| MemoSingleFlight.MemoCallOutcome | src/common/ai-cost-engine/memo-cache.ts:40-113 | under any Redis failure a call computes at most once; it returns its own value, or one that another call with a fitting key computed, passed through `onHit`, and then it computed nothing; a follower polls at most 54 times |
| MemoSingleFlight.AlwaysGoesOn | src/common/ai-cost-engine/memo-cache.ts:55-112 | between its start and its return a call can go on, after at most one poll pause, without any answer from Redis |
| MemoSingleFlight.StoredAnswerIsServed | src/common/ai-cost-engine/memo-cache.ts:72-76 | a live entry under the current key is returned without computing, locking or writing |
| MemoSingleFlight.MissComputesAndStores | src/common/ai-cost-engine/memo-cache.ts:78-112 | an undisturbed miss computes once from the present data, leaves its value under its key and no lock |
| MemoFollowers.PaysExactly | src/common/ai-cost-engine/memo-cache.ts:51-113 | a step calls the model for a call if and only if it is its bypass, an unanswered version read or `SET`, a `SET` that finds the lock free, or a look at the clock eight seconds after it found the lock taken |
| MemoFollowers.FollowerWaits | src/common/ai-cost-engine/memo-cache.ts:84-97 | in every run a call that finds the lock taken does not call the model for eight seconds: it waits, or it has been served from the cache |
| MemoFollowers.FollowerPauses | src/common/ai-cost-engine/memo-cache.ts:86-88 | it looks at the clock before and pauses 150 ms before each poll |
| MemoFollowers.FollowerIsServed | src/common/ai-cost-engine/memo-cache.ts:88-94 | in every run, while the entry of its key lives and its polls are answered, the next move of a pausing follower returns the value through `onHit` |
| MemoFollowers.FollowerShares | src/common/ai-cost-engine/memo-cache.ts:78-105 | two callers, one model call: a second call that arrives while the owner computes returns the value of the owner after its first poll |
| MemoFollowers.ComputedIsReturned | src/common/ai-cost-engine/memo-cache.ts:97-112 | whatever Redis answers to its `SET` and `DEL`, a call that has computed a value returns it; the entry and the lock it leaves behind |
| MemoFollowers.ThrownIsThrown | src/common/ai-cost-engine/memo-cache.ts:97-112 | a computation that throws throws to its caller too, after the same `DEL` |
| MemoFollowers.TracesLast | src/common/ai-cost-engine/memo-cache.ts:78-101 | an entry that nothing touches is found for its time to live, and a lock is held for 15 s, even if the answer to its `SET` was lost |
| CanonicalJson.CanonicalIffSame | src/common/ai-cost-engine/memo-cache.ts:11-18 | two values have equal text exactly when they are equal up to the order of object keys, at any depth |
| CanonicalJson.SameText | src/common/ai-cost-engine/memo-cache.ts:14-15 | values equal up to key order print the same text |
| CanonicalJson.TextUnique | src/common/ai-cost-engine/memo-cache.ts:11-18 | a value can be told from its text even when more text follows |
| CanonicalJson.BeforeIsUtf16 | src/common/ai-cost-engine/memo-cache.ts:14 | names are sorted by the numbers of their UTF-16 units |
| CanonicalJson.EscapesAre | src/common/ai-cost-engine/memo-cache.ts:15 | string literals escape quotes, backslashes and control characters as `JSON.stringify` does, and nothing else |
| VersionKeys.VersionStore.VersionsFor | src/common/ai-cost-engine/version-keys.ts:19-31 | one read per source in order gives the stamp of the current counters; a failed read anywhere gives none |
| VersionKeys.VersionStore.BumpVersions | src/common/ai-cost-engine/version-keys.ts:34-44 | the counters of all sources up to the first failed increment rise |
| VersionKeys.BumpedCounts | src/common/ai-cost-engine/version-keys.ts:38-40 | each counter rises by the number of times its source is listed |
| VersionKeys.StampUnique | src/common/ai-cost-engine/version-keys.ts:23-27 | a stamp text comes from one list of kinds and versions only |
| VersionKeys.StampLooks | src/common/ai-cost-engine/version-keys.ts:19-31 | a stamp is the prompt version and the letters s, k and p with their counters; a counter never raised counts as 0 |
| VersionKeys.HashedTextUnique | src/common/ai-cost-engine/memo-cache.ts:53 | with store ids free of bars, equal hashed texts have equal store, versions and input, and conversely |
| AceSettings.StoreLoad | src/common/ai-cost-engine/ace-config.ts:64-101 | loading the record that `rawLayers` stores gives back the same settings, for all settings that a load can produce |
| AceSettings.LoadRow | src/common/ai-cost-engine/ace-config.ts:64-101 | whatever the row holds, what is loaded has all layers, all parameters and at most 50 audit entries |
| AceSettings.NothingStored | src/common/ai-cost-engine/ace-config.ts:11-101 | without a row every layer but the ledger is off, everyone is stable and the four parameters have their defaults |
| AceSettings.KnownTextsCount | src/common/ai-cost-engine/ace-config.ts:64-101 | field by field, a stored mode counts if it is one of the known texts, and anything else is as if nothing were stored there |
| AceSettings.UpdateMeans | src/common/ai-cost-engine/ace-config.ts:242-281 | an update without changes writes nothing; otherwise the stored row loads as the settings asked for, all else as before |
| AceHistory.ChangesName | src/common/ai-cost-engine/ace-config.ts:246-277 | the entries of an update name a field exactly when the patch differs from the settings there |
| AceHistory.EntriesNameChanges | src/common/ai-cost-engine/ace-config.ts:249-279 | field by field, the new entries name a field just when it changed, if and only if the field is not one of the odd ones (inherited names, equal containers, unknown parameters) |
| AceHistory.PuttingBackRestores | src/common/ai-cost-engine/ace-config.ts:249-279 | putting back the `from` values restores the old settings if and only if no unknown parameter changed along |
| AceHistory.AuditTells | src/common/ai-cost-engine/ace-config.ts:229-232 | after an update the audit begins with its entries, dated and signed, each from what the settings had to what the patch asks; then come the older ones, fifty in all |
| AceRevert.RevertMeans | src/common/ai-cost-engine/ace-config.ts:284-295 | after a revert: stable, no overrides, stamped with the time, layers and parameters kept |
| AceRevert.UndoMeans | src/common/ai-cost-engine/ace-config.ts:298-310 | while the audit knows the last revert, undo brings back the modes from before it and leaves all else |
| AceRevert.UndoAnswers | src/common/ai-cost-engine/ace-config.ts:298-310 | undo has nothing to do exactly when the audit knows no revert and throws exactly when the newest one has no old value; where that value says nothing, everyone is stable and without overrides |
| AceRevert.RevertUndo | src/common/ai-cost-engine/ace-config.ts:284-310 | after a revert and any updates, undo restores engine mode and overrides, and leaves all else, if and only if the updates wrote fewer than fifty entries; otherwise there is nothing to undo |
| AceRevert.RevertIsLogged | src/common/ai-cost-engine/ace-config.ts:284-295 | the entry of a revert is dated and signed, and names the modes before it and stable without overrides |
| AceRevert.UndoIsLogged | src/common/ai-cost-engine/ace-config.ts:304-308 | the entry of an undo is dated and signed, and names the mode before it and the mode after it |
| AceEngine.TurnSeesChange | src/common/ai-cost-engine/ace-config.ts:64-126 | while changes are announced, the turns of all processes that can read version and row always work with the current settings, whatever the caches hold, if and only if the settings never change during a load of another process |
| AceEngine.SpanningLoadIsStale | src/common/ai-cost-engine/ace-config.ts:72-112 | a load reads the row before the version: one that spans a change caches the old settings under the new version, and for a minute the turns of its process do not see the change although every read answers |
| AceEngine.MinuteLaterAllSeeIt | src/common/ai-cost-engine/ace-config.ts:103-126 | when every read of the row answers and no change happens during a load of another process: one minute after the last change every process has it, even if Redis never answers |
| AceEngine.FailedReadForgetsSettings | src/common/ai-cost-engine/ace-config.ts:71-112 | what an update stores is built on what its load has read: on the defaults after a failed read, on an older row when it joins a load in flight |
| AceEngine.OthersSurvive | src/common/ai-cost-engine/ace-config.ts:242-281 | the settings that an update does not speak of survive it if and only if nothing is written or what its load has read agrees with the stored settings there |
| AceEngine.RevertDominates | src/common/ai-cost-engine/ace-config.ts:152-180 | after a stored revert, whatever is answered, loaded and stored from then on, no turn of any process gets lean if and only if none escapes: works with settings that do not know of the revert and there decides for lean or honours a lean sticky, or has a lean sticky stamped in the very millisecond of the revert |
| AceEngine.WhoHears | src/common/ai-cost-engine/ace-config.ts:103-126 | while the revert stands, with announced changes or a minute after the last one, a turn works with settings that know of it if and only if it does not find an old version without being able to read the row again, and does not go on with an older cache or with the defaults of a failed read |
| AceEngine.MissedRevertLasts | src/common/ai-cost-engine/ace-config.ts:103-180 | a process with a lean cache whose version read fails once within the minute after an announced revert makes its conversation lean in every process for the week of the sticky, until the next revert, although everything answers from then on |
| AceEngine.AnnouncedRevertDominates | src/common/ai-cost-engine/ace-config.ts:152-180 | after an announced revert and until lean is set again, when rows and versions can be read and no change happens during a load of another process: a turn of any process gets lean if and only if its live sticky is lean and stamped in the very millisecond of the revert, with no later revert |
| AceEngine.SameMillisecondStaysLean | src/common/ai-cost-engine/ace-config.ts:162 | that exception happens: a conversation made lean in the millisecond of the revert stays lean |
| AceEngine.ModeIsConstant | src/common/ai-cost-engine/ace-config.ts:157-166 | between reverts the mode of a conversation is that of its sticky for as long as it lives and its turns can read it, in every process and through edits, undos and loads in flight |
| AceEngine.TurnFixesMode | src/common/ai-cost-engine/ace-config.ts:168-176 | a turn that sets a sticky starts such a constant stretch of a week |
| AceDecision.NewConversations | src/common/ai-cost-engine/ace-config.ts:147-180 | from the request of the administrator to the turn: after an announced update a conversation that no sticky decides gets the mode asked for its store, else the one stored for its store, else the default that was asked for, else the stored one |
| AceDecision.OtherStoresKeepMode | src/common/ai-cost-engine/ace-config.ts:147-180 | conversations of a store that the update does not speak of get the mode they would have got before it |
| AceDecision.UnannouncedIsLate | src/common/ai-cost-engine/ace-config.ts:207-217 | a saved change whose announcement fails: another process goes on with its settings until they are a minute old, then reads the new ones |
| AceService.RowToStore | src/common/ai-cost-engine/ace-config.ts:245-279 | the loops over layers and parameters build the record and the changes of an update |
| AceService.CollectLayers | src/common/ai-cost-engine/ace-config.ts:253-259 | the layer loop records each real change and sets it in the record |
| AceService.CollectParams | src/common/ai-cost-engine/ace-config.ts:271-277 | the parameter loop records the four known parameters in order |
| AceService.AceConfig.BeginLoading | src/common/ai-cost-engine/ace-config.ts:71-73 | the first half of a load: the row is read, unless a cache is alive or a load is in flight |
| AceService.AceConfig.EndLoading | src/common/ai-cost-engine/ace-config.ts:94-112 | the second half: the version is read and the settings are cached |
| AceService.AceConfig.FreshForTurn | src/common/ai-cost-engine/ace-config.ts:103-126 | returns the settings a turn works with and leaves them cached; a load joins the one in flight |
| AceService.AceConfig.ResolveEngineMode | src/common/ai-cost-engine/ace-config.ts:152-180 | the mode and the new sticky, cache and store state of a turn |
| AceService.AceConfig.UpdateAceSettings | src/common/ai-cost-engine/ace-config.ts:242-281 | the new store state and cache of an update, on every failure path |
| AceService.AceConfig.EmergencyRevertToStable | src/common/ai-cost-engine/ace-config.ts:284-295 | the new store state and cache of a revert |
| AceService.AceConfig.UndoEmergencyRevert | src/common/ai-cost-engine/ace-config.ts:298-310 | the new store state and cache of an undo, and its answer: undone, nothing to undo, or an error |
| LlmSemaphore.EveryRun | src/common/services/llm-turn-guard.ts:76-120 | in every run of acquire, timeout and release: active is the number of outstanding grants and at most max, the queue is bounded, a non-empty queue means active = max, and the log of events is fair |
| LlmSemaphore.FirstComeFirstServed | src/common/services/llm-turn-guard.ts:109-119 | in a fair log, who queued first is answered before a later one is granted a slot |
| LlmSemaphore.SettledOnce | src/common/services/llm-turn-guard.ts:99-112 | each caller is granted, refused or timed out once at most |
| LlmSemaphore.ReleasedOnce | src/common/services/llm-turn-guard.ts:115-119 | a granted slot is given back once at most |
| LlmSemaphore.AcquireKeepsOk | src/common/services/llm-turn-guard.ts:85-113 | acquire keeps the invariant, and refuses exactly when `isSaturated` was true |
| LlmSemaphore.AcquireAnswers | src/common/services/llm-turn-guard.ts:85-113 | told by the log of a run alone: a newcomer gets a slot while one is free, else a place while the queue has one, else a refusal, and exactly then `isSaturated` was true |
| LlmSemaphore.Semaphore.Acquire | src/common/services/llm-turn-guard.ts:93-113 | the new state; a slot, a place in the queue or a refusal according to it |
| LlmSemaphore.Semaphore.TimeOut | src/common/services/llm-turn-guard.ts:104-108 | the waiter is found, cut out of the queue and logged as timed out |
| LlmSemaphore.Semaphore.Release | src/common/services/llm-turn-guard.ts:115-119 | the slot passes to the first waiter, or active falls by one |
| LlmTurnGuard.NoCallNoSlot | src/common/services/llm-turn-guard.ts:133-162 | in every run the slots in use are exactly those of calls between their grant and their end, so none when no such call exists |
| LlmTurnGuard.SlotReturnedOnce | src/common/services/llm-turn-guard.ts:147-160 | a call that has ended, on whatever path, has given back each slot it was granted, once |
| LlmTurnGuard.AbortedInTime | src/common/services/llm-turn-guard.ts:64-68 | however turns are nested, a call in flight is aborted at the deadline of its outermost turn or 20 s after it was sent, whichever comes first |
| LlmTurnGuard.CallStarts | src/common/services/llm-turn-guard.ts:133-146 | in every run a call of a turn fails at once when its outermost turn is out of time; else it gets a slot while fewer than 100 are in use, else it waits while fewer than 200 wait, else it is refused |
| LlmTurnGuard.CallGoesOn | src/common/services/llm-turn-guard.ts:147-160 | a call that has its slot is sent if its outermost turn still has time, to be aborted at the earlier of the deadline and 20 s; else it fails |
| LlmTurnGuard.WaitingEnds | src/common/services/llm-turn-guard.ts:93-119 | in every run a waiting call leaves the queue as the first one when another call gives its slot back, or with an error once its outermost turn is out of time, and not before |
| LlmTurnGuard.WaitsAnsweredOnce | src/common/services/llm-turn-guard.ts:43-74 | a drain wait is answered once at most, and someone waits only while an outermost turn runs |
| LlmTurnGuard.DrainedMeansIdle | src/common/services/llm-turn-guard.ts:44-72 | an answer is "drained" if and only if no outermost turn runs at that moment; no one who waits is forgotten, and no one is left waiting when no such turn runs |
| LlmTurnGuard.DrainGate.Leave | src/common/services/llm-turn-guard.ts:70-73 | the last turn to end answers every waiter, in order, and empties the list |
| LlmTurnGuard.DrainGate.GiveUp | src/common/services/llm-turn-guard.ts:46-50 | a timed-out wait is cut out and answered false |
| CaptionCatalog.BuildDefaultSegments | src/common/services/caption-style-catalog.ts:165-184 | the group loop produces the segments of consecutive groups of words |
| CaptionCatalog.SegmentsKeepWords | src/common/services/caption-style-catalog.ts:172-181 | grouping loses no word and keeps their order |
| CaptionCatalog.SegmentSays | src/common/services/caption-style-catalog.ts:165-184 | segment j holds the next words, as many as a cue has room for or what is left; it begins and ends with them to the nearest millisecond, and its text, cut at blanks, is those words |
| CaptionCatalog.WordsPerCue | src/common/services/caption-style-catalog.ts:168-171 | a cue has room for the words of a line times the lines of a cue, each at least one |
| CaptionCatalog.SegmentsInOrder | src/common/services/caption-style-catalog.ts:165-184 | for spoken words the segments follow one another and hold their rounded word starts in range |
| CaptionCatalog.ComputeWordHighlightIntervals | src/common/services/caption-style-catalog.ts:215-231 | the loop produces one interval per word with a positive length |
| CaptionCatalog.IntervalsChain | src/common/services/caption-style-catalog.ts:219-229 | the intervals of a segment in range fill it without gap or overlap |
| CaptionCatalog.ExactlyActiveIsLit | src/common/services/caption-style-catalog.ts:219-229 | at every moment of the segment an interval is lit, and its word is the last one whose rounded start is not later, else the first |
| CaptionFrames.RenderCaptionFrames | src/common/services/canvas-caption-renderer.ts:246-322 | the frame loop with its moving cursor produces the timeline |
| CaptionFrames.WordInLine | src/common/services/canvas-caption-renderer.ts:279-301 | word k of a segment stands at slot k % wordsPerLine of line k / wordsPerLine |
| CaptionFrames.FramesTile | src/common/services/canvas-caption-renderer.ts:250-321 | frames of ordered segments start at 0, each begins where the one before ended, and the last ends at the duration |
| CaptionFrames.EndToEnd | src/common/services/canvas-caption-renderer.ts:246-321 | from recognised words through default segments to frames: they tile the video and their lengths add up to its duration |
| CaptionFrames.FrameAtEveryMoment | src/common/services/canvas-caption-renderer.ts:261-321 | at every moment exactly one frame is on the screen and it shows the caption of that moment: active word, plain text or nothing |
| CaptionFrames.LitWord | src/common/services/canvas-caption-renderer.ts:295-308 | the highlighted slot holds the active word itself |
| AssSubtitle.EscapeIsHarmless | src/common/services/ass-subtitle-builder.ts:49-51 | escaped text opens no tag, starts no command and ends no line; harmless text is unchanged |
| AssSubtitle.ControlsVanish | src/common/services/ass-subtitle-builder.ts:49-51 | a backslash or a brace vanishes, wherever it stands |
| AssSubtitle.BreakIsBlank | src/common/services/ass-subtitle-builder.ts:49-51 | a line break of either kind becomes one blank, wherever it stands |
| AssSubtitle.LinesAroundPos | src/common/services/ass-subtitle-builder.ts:179-181 | the lines of a caption are one line height apart with their middle at its position, to the nearest pixel |
| AssSubtitle.BuildEvents | src/common/services/ass-subtitle-builder.ts:121-188 | the loops over segments and intervals produce the base and highlight events |
| AssSubtitle.EventLightsSameWord | src/common/services/ass-subtitle-builder.ts:153-186 | at every moment of a segment a highlight event shows the active word at the line and slot that the frame of that moment lights |
| AssSubtitle.OnlyOneHighlight | src/common/services/ass-subtitle-builder.ts:153-186 | no two highlight events of a segment are shown at one moment |
| AssSubtitle.HighlightsShareBoundaries | src/common/services/ass-subtitle-builder.ts:35-44 | after rounding to hundredths the highlights still begin and end with the segment and share all boundaries between |
| AssSubtitle.OffsetIsCanvasCentre | src/common/services/ass-subtitle-builder.ts:171-177 | where shaping is additive the highlight is centred where the canvas centres the same word, before rounding |
| AssSubtitle.EventReadBack | src/common/services/ass-subtitle-builder.ts:184-186 | a dialogue line reads back as layer, times to the hundredth, style, the two numbers of the place, and text |
| AssSubtitle.FileReadBack | src/common/services/ass-subtitle-builder.ts:190 | whatever the captions say, the file has one line per event, and each reads back so |
| AssScreen.ScreenAtMoment | src/common/services/ass-subtitle-builder.ts:121-188 | over all events of the file: at every moment of a segment exactly one base event is shown, with the times of the segment and a text that, cut at `\N` and at blanks, is its words in order; and, if it has words, exactly one highlight, with the text, line and slot of the active word |
| AssScreen.ScreenBetween | src/common/services/ass-subtitle-builder.ts:121-188 | between the segments no event is shown |
| AssScreen.FileAtMoment | src/common/services/ass-subtitle-builder.ts:35-190 | the same by the lines of the file as a reader finds them, at every hundredth of a second |
| WordBoxes.LineOf | src/common/services/text-shaping.ts:103-115 | character ranges of the words and the shaped line, in UTF-16 units |
| WordBoxes.UnitsOfChar | src/common/services/text-shaping.ts:103-115 | a character counts as two units exactly beyond the first plane |
| WordBoxes.MeasureLine | src/common/services/text-shaping.ts:117-138 | the nested loops add up prefix, width and total, in any glyph order |
| WordBoxes.PrefixAdds | src/common/services/text-shaping.ts:121-130 | the next prefix is this prefix, this width and the space advance |
| WordBoxes.LastEndsLine | src/common/services/text-shaping.ts:121-132 | the last prefix and width add up to the total |
| WordBoxes.BoxesApart | src/common/services/text-shaping.ts:121-132 | with non-negative advances the right-to-left boxes do not overlap, stay in the line, and the last one ends it |
| WordBoxes.LayoutLine | src/common/services/canvas-caption-renderer.ts:125-144 | the canvas loop gives each word the centre of its measured prefix and width |
| WordBoxes.LayoutsAgree | src/common/services/canvas-caption-renderer.ts:138-141 | both back ends compute the same unrounded centre when shaping is additive |
| WordBoxes.CentreOfBox | src/common/services/canvas-caption-renderer.ts:138-141 | that centre is the middle of the box of the word, seen from the middle of the line |
| SubtitleExport.SrtTimeReadBack | src/common/services/subtitle-export.ts:7-16 | an SRT stamp reads back as the rounded time |
| SubtitleExport.VttTimeReadBack | src/common/services/subtitle-export.ts:18-20 | a VTT stamp reads back as the rounded time |
| SubtitleExport.AssTimeReadBack | src/common/services/ass-subtitle-builder.ts:35-44 | an ASS stamp reads back as the time to the nearest 10 ms |
| SubtitleExport.AssTimesInOrder | src/common/services/ass-subtitle-builder.ts:36 | rounding to hundredths keeps the order of times |
| SubtitleExport.SrtRoundTrip | src/common/services/subtitle-export.ts:22-29 | a line reader recovers number, times and text of every cue if and only if no text has an empty line in it |
| SubtitleExport.VttRoundTrip | src/common/services/subtitle-export.ts:31-39 | the same for WebVTT |
| SubtitleExport.CuesAreCarried | src/common/services/subtitle-export.ts:22-39 | whatever lines it reads, the reader never returns a text with an empty line |
| SubtitleExport.OneLineIsCarried | src/common/services/subtitle-export.ts:22-39 | a text without a line break is carried |
| StreamReaders.ParseImageStream | src/common/services/image-generation.service.ts:305-411 | for every way of cutting the reply into chunks the result is that of splitting the whole text at blank lines without the unfinished piece |
| StreamReaders.ProgressTold | src/common/services/image-generation.service.ts:332-399 | the first error hides everything after it; else all partial images are reported in order and the last finished one counts |
| StreamReaders.OutcomeTold | src/common/services/image-generation.service.ts:332-411 | the outcome told by the events alone: the first error with the pictures before it, else the last finished picture with its media type and usage, else the kinds that were seen |
| StreamReaders.PolicyMeans | src/common/services/image-generation.service.ts:365-375 | an error is one of the policy exactly when its code and message spell moderation, policy or safety in any letters; message and code have their fallbacks |
| StreamReaders.ServedReadBack | src/common/services/image-generation.service.ts:336-344 | events as a server writes them are read back one by one, in order; the end mark says nothing |
| StreamReaders.DataIsRead | src/common/services/image-generation.service.ts:340-344 | a `data:` line is read to its data whatever white space is around it |
| StreamReaders.OtherLinesSayNothing | src/common/services/image-generation.service.ts:340-344 | a line that begins otherwise says nothing |
| StreamReaders.UsageTold | src/common/services/image-generation.service.ts:379-392 | the usage fields of both providers |
| StreamReaders.ReadProgress | src/common/services/media-transcode.worker.ts:104-120 | for every way of cutting the output, the percentages reported are those of the finished lines of the whole text |
| StreamReaders.OutTimeReadBack | src/common/services/media-transcode.worker.ts:109-112 | a progress line is read as the hours, minutes and seconds it shows |
| StreamReaders.TimeIsReported | src/common/services/media-transcode.worker.ts:104-120 | in a list of lines a line that shows a time gives one report, in its place |
| StreamReaders.OtherLinesAreSilent | src/common/services/media-transcode.worker.ts:104-120 | a line of any other shape gives none |
| StreamReaders.DecimalReadBack | src/common/services/media-transcode.worker.ts:109-112 | whole and decimal seconds are read as the number they show, up to where they end |
| StreamReaders.PercentInOrder | src/common/services/media-transcode.worker.ts:114-117 | percentages stay within 0 and 99, rise with the time and are the nearest whole per cent |
| RefundDestination.LuhnOk | src/common/utils/refund-destination.util.ts:56-70 | the alternating loop from the right accepts exactly 16 digits whose weighted sum is a multiple of ten |
| RefundDestination.LuhnRejectsSingleChange | src/common/utils/refund-destination.util.ts:56-70 | every change of one digit of a valid number is rejected |
| RefundDestination.LuhnSwap | src/common/utils/refund-destination.util.ts:56-70 | a swap of neighbours passes if and only if they are equal or are 0 and 9 |
| RefundDestination.LuhnCheckDigit | src/common/utils/refund-destination.util.ts:56-70 | each 15-digit prefix has exactly one valid last digit |
| RefundDestination.RearrangedNumber | src/common/utils/refund-destination.util.ts:75-79 | the moved and expanded digits write bban * 10^6 + 182700 + check |
| RefundDestination.Remainder97 | src/common/utils/refund-destination.util.ts:80-81 | the digit loop computes the whole number modulo 97 |
| RefundDestination.IbanOk | src/common/utils/refund-destination.util.ts:72-83 | accepts exactly IR and 24 digits whose number leaves 1 modulo 97 |
| RefundDestination.IbanRejectsSingleChange | src/common/utils/refund-destination.util.ts:72-83 | every change of one digit is rejected |
| RefundDestination.IbanRejectsSwap | src/common/utils/refund-destination.util.ts:72-83 | every swap of two different neighbours is rejected |
| RefundDestination.IbanCheckPair | src/common/utils/refund-destination.util.ts:72-83 | each BBAN has exactly one valid check pair in 02..98 |
| RefundDestination.ParseDestinationStable | src/common/utils/refund-destination.util.ts:118-142 | an accepted destination is valid, keeps the digits of the message, and parsing its `plain` gives it again |
| RefundDestination.CardExactly | src/common/utils/refund-destination.util.ts:118-142 | a message is taken as a card number if and only if its figures, in any of the three scripts and with anything between them, are a valid one and it does not begin with the country letters |
| RefundDestination.ShebaExactly | src/common/utils/refund-destination.util.ts:118-142 | it is taken as a SHEBA if and only if it writes the 24 figures of a valid one, with or without the letters, and nothing but blanks and dashes between them |
| FaAmounts.ParseFaAmounts | src/common/utils/fa-amounts.util.ts:40-82 | the match loop and the merge loop with `prev` and `total` give one amount per group |
| FaAmounts.FindSpans | src/common/utils/fa-amounts.util.ts:44-58 | the spans of all matches are the amounts of the text, each linked or not to the one before |
| FaAmounts.GroupsMean | src/common/utils/fa-amounts.util.ts:66-79 | groups partition the raw amounts; inside a group «و» joins strictly falling units, and neighbouring groups could not have been one |
| FaAmounts.MergingKeepsSum | src/common/utils/fa-amounts.util.ts:66-81 | merging keeps the sum of the raw amounts |
| AmountReading.PriceReadBack | src/common/utils/fa-amounts.util.ts:7-60 | a written price is read as the one amount it is worth, to the nearest toman: a number in ASCII, Persian or Arabic digits, with or without thousands separators and a decimal part; one of the four unit words or none; one of the three currency words or none; with or without blanks |
| AmountReading.UnitReadBack | src/common/utils/fa-amounts.util.ts:7-60 | for every n: n thousand, n million in both spellings, n milliard, n toman in both spellings, and n rial, a tenth of it, rounded |
| AmountReading.SumReadBack | src/common/utils/fa-amounts.util.ts:62-81 | prices of falling weight that are joined by «و» are read as the one amount of all of them |
| AmountReading.TwoPricesReadBack | src/common/utils/fa-amounts.util.ts:62-81 | two prices joined by «و» are one amount if and only if a unit of the first is worth more than one of the second |
| AmountReading.MillionsAndThousands | src/common/utils/fa-amounts.util.ts:62-81 | «n میلیون و m هزار تومان» is the one amount n * 10^6 + m * 10^3 |
| AmountReading.SpellingsAgree | src/common/utils/fa-amounts.util.ts:28-30 | Arabic ye and kaf read as the Persian letters, and the stretching character is not there |
| AmountSplits.NormalizeConcat | src/common/utils/fa-amounts.util.ts:24-38 | normalising a text is normalising its parts when the second begins with white space |
| AmountSplits.CompleteRule | src/common/utils/fa-amounts.util.ts:40-82 | a text adds its amounts to those of everything that may follow after white space if and only if it is complete: no number at its end waits for a unit or currency, and no last amount above the bare rial can be continued by «و» or a currency |
| AmountSplits.LineBreakRule | src/common/utils/fa-amounts.util.ts:97 | the same for a text with a line break at its end and anything behind it |
| AmountSplits.MarkIsComplete | src/common/utils/fa-amounts.util.ts:97 | a text that ends with a sentence mark is complete |
| PriceGuard.SentencesAdd | src/common/utils/fa-amounts.util.ts:97 | parsing the whole equals parsing the sentences one by one when every sentence but the last is complete |
| PriceLeaks.LeakRule | src/common/utils/fa-amounts.util.ts:40-97 | a text that ends with a sentence mark or a line break makes no amount with any text behind it that neither has alone, if and only if it does not leak |
| PriceLeaks.LeakFails | src/common/utils/fa-amounts.util.ts:40-97 | behind every text that leaks a quiet sentence can stand that makes a new amount with it |
| PriceGuard.PriceGuardSound | src/common/utils/fa-amounts.util.ts:92-103 | when no sentence but the last leaks and the card line is quiet, the returned text contains allowed amounts only |
| PriceGuard.GuardRule | src/common/utils/fa-amounts.util.ts:92-103 | the guard, line by line: over all white space and sentences that do not leak behind a line, and all sets of allowed amounts, the returned text contains allowed amounts only if and only if the line does not leak |
| PriceGuard.CompleteSentencesAreSealed | src/common/utils/fa-amounts.util.ts:97 | texts of complete sentences meet this condition |
| PriceGuard.OneLineIsComplete | src/common/utils/fa-amounts.util.ts:97 | every text without a line break is one of complete sentences |
| PriceGuard.CardRule | src/common/utils/fa-amounts.util.ts:102 | a card line without amounts is safe for all texts whose sentences do not leak and all allowed sets if and only if it does not open with a unit or currency |
| PriceGuard.LineBreakDefeatsGuard | src/common/utils/fa-amounts.util.ts:97-101 | a line break inside a price defeats the guard: the text comes back unchanged with an amount that nobody allowed |
| PriceSentences.SentencesReadBack | src/common/utils/fa-amounts.util.ts:97 | a text written in sentences, with white space between them, is split into these sentences |
| PriceSentences.EveryTextIsWritten | src/common/utils/fa-amounts.util.ts:97 | every text is written that way in the sentences into which it is split |
| PriceSentences.UnauthorizedAre | src/common/utils/fa-amounts.util.ts:84-89 | the amounts reported are those in the text that are not allowed, each once |
| PriceSentences.KeptIs | src/common/utils/fa-amounts.util.ts:98-100 | a sentence stays if and only if all its amounts are allowed, and the others stay in their order |
| PriceSentences.GuardKeeps | src/common/utils/fa-amounts.util.ts:92-103 | a text is returned unchanged if and only if every amount of every sentence is allowed; else the sentences that stay and the card line come back |
| RateLimit.Limiter.BuyerOtpSendBlock | src/common/utils/buyer-otp-limit.ts:21-40 | phone, address and store counters in this order; the first that is over blocks and leaves the later ones untouched |
| RateLimit.Limiter.OverLimit | src/common/utils/buyer-otp-limit.ts:6-15 | the counter rises in its window or starts a new one, and is over when past its limit |
| RateLimit.LessThanTwice | src/common/utils/buyer-otp-limit.ts:6-40 | however the `INCR` and `EXPIRE` calls of concurrent attempts interleave, and even if an `EXPIRE` never comes, any span of one window length holds less than twice the limit of sends for each phone, address and store-phone key, each dated at its check of that key |
| OtpLimits.BlockedExactly | src/common/utils/buyer-otp-limit.ts:6-40 | in every run a check blocks its attempt if and only if its counter is alive and its key was checked 5 times, for an address 20 times, for a store and phone 3 times, since the counter was made |
| OtpLimits.CounterLives | src/common/utils/buyer-otp-limit.ts:10-13 | a counter lives for an hour, that of a store and phone for ten minutes |
| OtpLimits.ChecksDoNotProlong | src/common/utils/buyer-otp-limit.ts:10-13 | and later checks do not prolong it |
| OtpLimits.FirstLimitBlocks | src/common/utils/buyer-otp-limit.ts:26-39 | over the phone limit the other counters are left alone; else, over the address limit, that of the store is |
| OtpLimits.ThreeCodes | src/common/utils/buyer-otp-limit.ts:21-40 | of four codes for one store and phone the first three are sent and the fourth is blocked by the limit of the store and phone |
| OtpLimits.LostExpire | src/common/utils/buyer-otp-limit.ts:12-13 | an attempt that fails between the `INCR` and the `EXPIRE` of a new counter leaves one without an end |
| OtpLimits.EndlessStays | src/common/utils/buyer-otp-limit.ts:12-13 | such a counter lives in every run that follows and counts every check of its key |
| OtpLimits.LostExpireBlocks | src/common/utils/buyer-otp-limit.ts:12-14 | so it blocks exactly the checks from its limit on, however much later they come |
| RateLimit.PromptSends | src/common/utils/buyer-otp-limit.ts:6-40 | dated at the send itself the same holds of spans shorter by the longest time from a check to its send |
| RateLimit.LateSendsPile | src/common/utils/buyer-otp-limit.ts:21-40 | without a bound on that time there is none on the sends: for every n a run lets n sends of one phone happen in one millisecond |
| RateLimit.AloneIsARun | src/common/utils/buyer-otp-limit.ts:6-40 | what `BuyerOtpSendBlock` does on its own is one way in which a run goes on |
| RateLimit.KeyTextUnique | src/common/utils/buyer-otp-limit.ts:27-36 | different keys have different Redis keys when phone numbers carry no colon |
| EventPaging.PageIs | src/common/utils/conversation-events.util.ts:16-25 | a page is the newest stretch of at most 50 of what matches, in the order of creation, and tells whether there is more |
| EventPaging.NewerEventsDoNotDisturb | src/common/utils/conversation-events.util.ts:17 | events added during a walk do not change older pages |
| EventPaging.WalkIsComplete | src/common/utils/conversation-events.util.ts:8-26 | the cursor walk returns every event once and in order if and only if no page boundary falls between two events of one time |
| EventPaging.DistinctTimesComplete | src/common/utils/conversation-events.util.ts:8-26 | when no two events share a time the walk ends with the whole log |

## Left out

- HTTP, Prisma, object storage, SMS, email and provider clients: foreign systems; Redis is a map with counters, set-if-absent and expiry, the database a commit history.
- Glyph shaping, drawing, colours, fonts and boxes behind captions, the style header of the ASS file: only advances, clusters, widths and the interval list are kept; header lines are a parameter.
- `layerMode`, `engineAllowsLayers`, ledger notes and prices of avoided calls in `memoCall`: one branch each before the protocol starts (`Bypass`) or a note beside it.
- Races between the load and the save of one administrator's request, and between the settings and the sticky of one turn in `ace-config.ts`: a resolve, an update, a revert and an undo are one step each.
- AceEngine.MinuteLaterAllSeeIt: asks that no settings change during a load of another process; a load that spans a change delays it by up to a minute after its end (`SpanningLoadIsStale`).
- AceEngine.AnnouncedRevertDominates: asks the same; `RevertDominates` asks nothing of the steps after the revert.
- AceEngine.ModeOf: store ids are not the names that every JavaScript object inherits (`constructor`, `__proto__`), for which the lookup of an override would find no mode but a function or an object.
- The Redis text of a sticky (`mode|time`): it is a record here.
- PriceGuard.PriceGuardSound: numbers of more than 308 digits, which overflow to infinity, are treated as finite.
- CanonicalJson.CanonicalIffSame: covers values that come from JSON; `undefined`, functions and lone surrogates are not values of the model.
- RateLimit.LessThanTwice: a Redis call takes effect or its attempt fails; a counter whose `EXPIRE` never came blocks its key for good (`LostExpireBlocks`), and no step of the model deletes a counter.
- EventPaging.WalkIsComplete: events of one time keep one order between queries, which the database does not promise.
- Bank names, masks, `formatTomanAmountsInText`, `maskSensitiveNumbers`, phone and slug helpers: tables and easy members.
- Retries and request bodies of image generation, codecs and temporary files of the transcode worker: branch-by-branch code without a loop property.
- Seeds, translations, modules, controllers, admin pages and reports: data and wiring.
