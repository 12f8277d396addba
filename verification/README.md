# Heterion Router, verified

A Dafny 4.11 model of the parts of the Heterion Router gateway that keep state over
many requests or do exact arithmetic, with proofs about whole runs of them. `dafny
verify dfyconfig.toml` checks everything; the files only depend on each other.

What is modelled, one or a few files each:

- **The Anthropic event stream.** `ClaudeDialect` is the encoder with the fields and
  methods of the gateway's; `ClaudeClient` is the reader of the dialect, strict about
  brackets, indices and the kinds of deltas; `ClaudeTranscript` says what a reader ought
  to end up with, without frames or indices. Encoder followed by reader gives that
  transcript, for every stream of chunks and errors.
- **Single-flight OAuth refresh.** `CredentialRefresh` is a step relation over any number
  of concurrent callers (select, answer, reject, lock, compare, exchange, persist,
  install, cancel), `CredentialRotation` what its runs do to the refresh tokens;
  `CredentialPool` is the pool with its cursor, the refresh in one go and the attempt loop
  among other callers' selections.
- **Calendar and timestamps.** `CivilCalendar` holds the gateway's four copies of the
  day-count arithmetic beside the Gregorian calendar itself, `Timestamps` the printer and
  both parsers, `KeyStoreStamps` what the key store accepts, `Periods` the budget windows.
- **Budgets.** `BudgetLedger` is the cost ledger, the budget row and the verdict,
  `BudgetOvershoot` the interleavings of arriving and answered requests,
  `BudgetWarnings` the one stamp that rations warnings, `RateLimiter` the fixed-window
  limiter with its sweep.
- **Response cache.** `CanonicalJson` and `CanonicalInjective` are the serializer and its
  injectivity, `CanonicalText` what it writes, said of the value alone, `JsonStrings` a
  reader of what it quotes, `CacheKeys` signatures and the range scan, `CacheTable` the rows,
  `ResponseCache` the middleware over all interleavings.
- **Thought signatures.** `SignatureStore` is the bounded store, its log and its reload,
  `SignatureWriter` the bounded write-behind queue and its flush, `SignatureRestart` the
  two together: what a restart would load after any run of recording threads and writer.
- **Combos, embeddings, tool calls.** `ComboModels` rewrites and parses combo models,
  `Bits` and `Base64Vectors` are the hand-written base64 against a definition in bits,
  `ToolCallDeltas` restores the ids and names of streamed tool calls.

`Wrappers`, `Text` and `Json` are shared: optional values, string operations and decimal
numbers, JSON values with objects as maps. Money and cosine scores are `real`; times are
`int`. Every object the gateway mutates is a class whose methods are proved against
functions on values; the lemmas are about those functions.

What the proofs say about the code that its own comments do not:

- A hit books the tokens its row has *accumulated*, so the saving doubles per hit; it
  equals one answer's saving per serving only for a row hit at most once or saving nothing
  (`SavingIsPerHit`).
- Usage reported after the finish chunk never reaches an Anthropic client
  (`LateUsageIsLost`), so the usage it gets is the last one reported exactly if the late
  reports are none or end on the same numbers (`UsageIsTheLast`). Anything audible after
  the end of a stream makes it malformed (`ClaudeStream`).
- As many selections as there are credentials meet each of them exactly if the cursor does
  not wrap among them or the pool's size divides its range (`EverySlotIsMet`). A failed call
  among other callers has tried every credential exactly if the selections made on the pool
  from one of its attempts to a later one were never a multiple of the pool's size
  (`InterleavingDecides`; `CallMeetsEverySlot` with wraps). As many callers as credentials,
  taking turns, each try one credential over and over (`TakingTurnsMissesSlots`).
- A rotated refresh token that the persist callback refuses, or whose caller is gone, is
  lost although the old one was spent for it (`RefusedRotationIsLost`). A slot holds the last
  one issued for it exactly if the last answer that rotated it was installed, or brought the
  token the slot holds anyway (`HoldsTheLastIssued`).
- A tool call whose pieces are interrupted comes out as several blocks, the later ones with
  the id and name of the piece that returns; it is one block exactly if nothing else is said
  between its pieces (`OneBlockPerCall`).
- One warning stamp serves three periods. A window is warned for once exactly when its
  warnings are not interrupted by those of another (`WarnsOncePerWindow`); one cap is
  always safe (`OneCapWarnsOnce`), two are not (`TwoCapsWarnTwice`).
- A semantic hit serves an answer of the model asked for exactly if the stored question
  names a model, or its last answer and its last one stored with a vector name the same
  (`SemanticHitIsIsolated`); a question without a model, stored again without a vector, is
  where it does not (`StaleVectorServesAnotherModel`).
- After every record, once the writer is done, a restart would load the live store exactly
  if every line that reached the file was a whole pair of an id not evicted before, and
  every pair whose line did not reach it was in the store already (`EveryReload`,
  `ReplayIsLive`). An evicted id recorded again is lost (`EvictedIdIsLostOnReload`), and so
  is a new one whose line the full queue dropped (`DroppedIdIsLost`). Two threads that
  record one id may leave the older signature in the file (`RacingThreadsDisagree`). Store
  and file can come together again later (`SyncCanReturn`), so a single look after a flush
  does not tell (`OneFlushIsNotEnough`). What a single moment takes, whatever the writer and
  the threads are doing, is in `ReloadNow`. A signature file that is not text is neither
  loaded nor rewritten, at this start or any later one (`GarbledFileLoadsNothing`).
- The day count with months modulo twelve agrees with the other copies exactly for months
  -9 to 14 (`DayCountCopiesAgree`).
- The limiter lets through at most twice its limit *less one* in any minute, and that
  bound is met (`AdmittedBelowTwice`, `BoundIsMet`).
- A combo reads back as it was written exactly when its providers are not empty, hold no
  slash and no outer whitespace (all-whitespace excepted) and its models are not empty
  (`RewriteReadsBack`).
- A warning threshold outside (0, 1] is clamped into it and never becomes the default,
  whatever the comment above it says (`ThresholdIsClamped`); of the unusable ones exactly
  those that are not finite do (`UnusableBecomesDefault`).
- The key store reads a zone without a colon; the credential loader refuses such a stamp
  or, west of Greenwich and behind a fraction of a second, reads it as UTC
  (`ZonedStampsAgree`).
- A stamp that stops at the minute is read by the credential loader and refused by the key
  store (`SecondsMayLack`). The loader checks no range either, so of stamps in UTC the two
  read the same exactly if every number is within its range (`SameFieldsInRange`).
- The upper bound of the vector range is right only for prefixes that end below U+00FF
  (`RangeIsPrefix`); the gateway's end in a colon.

## Model

| member | source | states |
|---|---|---|
| ClaudeDialect.ClaudeStream | crates/heterion-router-gateway/src/claude_endpoint.rs:484-591 | for every run of chunks and errors, a strict client that folds the frames ends with exactly the declared outcome, malformed if and only if something speaks after the terminal item; it holds every content, reasoning and call-argument string heard, each in blocks of its own kind and in order, the last usage reported or zero, and stops with tool_use if and only if the finish reason is tool_calls or function_call, max_tokens if and only if it is length or max_tokens, refusal if and only if it is content_filter, and end_turn for any other or none |
| ClaudeDialect.ProgressIsOutcome | crates/heterion-router-gateway/src/claude_endpoint.rs:543-591 | advancing item by item gives the outcome declared from the first terminal item and the transcript |
| ClaudeTranscript.CallIsRead | crates/heterion-router-gateway/src/claude_endpoint.rs:691-720 | a streamed call is named by its id and its function's name, filed under its unsigned index and says its function's arguments; what is no string is empty |
| ClaudeTranscript.TranscriptHoldsAll | crates/heterion-router-gateway/src/claude_endpoint.rs:660-720 | the expected blocks hold every content, reasoning and argument string of the items, each in blocks of its own kind, in order, and nothing else |
| ClaudeDialect.FeedPiece | crates/heterion-router-gateway/src/claude_endpoint.rs:660-720 | one text, thinking or tool piece moves encoder, reference and client together from any state, opening a block only where the run changes |
| ClaudeDialect.FeedStop | crates/heterion-router-gateway/src/claude_endpoint.rs:744-764 | the closing frames finish the message of a live client and break any other |
| ClaudeDialect.AfterTheEnd | crates/heterion-router-gateway/src/claude_endpoint.rs:543-591 | after the end only silent items leave the message as it is |
| ClaudeDialect.LateUsageIsLost | crates/heterion-router-gateway/src/claude_endpoint.rs:680-688 | usage on a chunk of its own after the terminal item changes nothing the client holds |
| ClaudeDialect.UsageIsTheLast | crates/heterion-router-gateway/src/claude_endpoint.rs:680-764 | a finished message carries the last usage reported if and only if the items after the terminal one report none or end on the usage it has |
| ClaudeDialect.Dialect.Chunk | crates/heterion-router-gateway/src/claude_endpoint.rs:660-689 | the frames of one chunk take the client where the chunk takes the reference, wherever the message stands |
| ClaudeDialect.Dialect.ToolUse | crates/heterion-router-gateway/src/claude_endpoint.rs:691-720 | the calls of one chunk, a block per call index, continuing the open one of the same index |
| ClaudeDialect.Dialect.Refusal | crates/heterion-router-gateway/src/claude_endpoint.rs:724-731 | an error frame ends the message for the client |
| ClaudeDialect.Dialect.Finish | crates/heterion-router-gateway/src/claude_endpoint.rs:736-741 | a stream without a terminal chunk is closed as an end of turn, any other is left alone |
| ClaudeDialect.Dialect.Begin | crates/heterion-router-gateway/src/claude_endpoint.rs:781-793 | closes the open block and opens one at the next index |
| ClaudeTranscript.TranscriptKeepsEverything | crates/heterion-router-gateway/src/claude_endpoint.rs:660-720 | the expected transcript drops, repeats and reorders nothing, files every delta under its kind and its tool call, and its maximal runs bear the heads of the pieces that opened them |
| ClaudeTranscript.BlocksAreVisits | crates/heterion-router-gateway/src/claude_endpoint.rs:660-720 | a tool call, or a kind of text, occupies one block for each time the pieces come to it |
| ClaudeTranscript.OneBlockPerCall | crates/heterion-router-gateway/src/claude_endpoint.rs:691-720 | it is one block if and only if nothing else is said between its pieces |
| ClaudeFrames.MalformedIsFinal | crates/heterion-router-gateway/src/claude_endpoint.rs:607-614 | a client that saw a malformed stream is not repaired by more frames |
| CredentialRefresh.StepKeepsInvariant | crates/heterion-router-gateway/src/grok_cli.rs:261-354 | every step of every caller keeps the protocol invariant |
| CredentialRefresh.OneCallerPerSlot | crates/heterion-router-gateway/src/grok_cli.rs:266-273 | two callers are never inside the refresh of one slot together |
| CredentialRefresh.SlotChangesOnlyUnderItsLock | crates/heterion-router-gateway/src/grok_cli.rs:243-291 | a slot changes only by its lock holder, to a token it never held, under its own row, and after the row was stored |
| CredentialRefresh.OnlyCurrentSnapshotsRefresh | crates/heterion-router-gateway/src/grok_cli.rs:274-288 | a caller contacts the token endpoint exactly when its snapshot is the slot's current generation and has a refresh token; with an older one it takes the current credential |
| CredentialRefresh.RefreshWorksOnCurrent | crates/heterion-router-gateway/src/grok_cli.rs:274-291 | the slot stands still while it is refreshed |
| CredentialRefresh.EachGenerationReplacedOnce | crates/heterion-router-gateway/src/grok_cli.rs:261-292 | each generation is installed over at most once, and the token endpoint is contacted for it at most once more than contacts came to nothing: without a usable answer, abandoned by a cancelled caller, or refused by the persist callback |
| CredentialRefresh.StoreAgreesWhenFree | crates/heterion-router-gateway/src/grok_cli.rs:294-313 | whenever a slot's lock is free its row holds the slot's own access token, refresh token and expiry |
| CredentialRefresh.RetryCarriesANewToken | crates/heterion-router-gateway/src/grok_cli.rs:316-341 | a retry never carries the rejected token again |
| CredentialRefresh.HolderCanLetGo | crates/heterion-router-gateway/src/grok_cli.rs:261-292 | a held lock always has a step towards its release |
| CredentialRefresh.EveryWayIsOpen | crates/heterion-router-gateway/src/grok_cli.rs:253-354 | nobody is ever stuck but for a lock another caller holds: each phase has all the ways on that its code has, whatever the others do |
| CredentialRotation.StepRotates | crates/heterion-router-gateway/src/grok_cli.rs:261-291 | every step keeps each slot's credentials a chain of its installed answers, and each refresh token sent the one of its credential |
| CredentialRotation.SlotFollowsItsAnswers | crates/heterion-router-gateway/src/grok_cli.rs:283-291 | in every run, each credential a slot went through has the access token and expiry of its answer and the last refresh token the installed answers brought, or else the first one |
| CredentialRotation.ContactsSpendTheLatest | crates/heterion-router-gateway/src/grok_cli.rs:283-288 | every contact with the token endpoint spends the last refresh token installed for its slot, or the initial one |
| CredentialRotation.EveryContactIsSent | crates/heterion-router-gateway/src/grok_cli.rs:274-288 | every decision to refresh is recorded as a contact, with the slot's own refresh token |
| CredentialRotation.HoldsTheLastIssued | crates/heterion-router-gateway/src/grok_cli.rs:283-313 | a slot holds the last refresh token issued for it if and only if the last answer that rotated it was installed, or brought the token the slot holds anyway |
| CredentialRotation.RefusedRotationIsLost | crates/heterion-router-gateway/src/grok_cli.rs:294-313 | a run in which the persist callback refuses a rotation, and the slot keeps the token that was spent for it |
| CredentialRotation.AnswersAreAccountedFor | crates/heterion-router-gateway/src/grok_cli.rs:261-313 | in every run, each token the endpoint handed out is on its way to its slot or among the settled answers, exactly once, and no other token is |
| CredentialRotation.AnswersComeFromContacts | crates/heterion-router-gateway/src/grok_cli.rs:283-288 | in every run a slot's answers, and the callers still after one, are at most its contacts with the token endpoint |
| CredentialPool.EverySlotIsMet | crates/heterion-router-gateway/src/grok_cli.rs:233-241 | as many selections as there are credentials meet each of them if and only if the cursor does not wrap among them or the pool's size divides its range |
| CredentialPool.CallMeetsEverySlot | crates/heterion-router-gateway/src/grok_cli.rs:490-515 | with other callers selecting in between, a call's attempts meet every slot if and only if from no attempt to a later one the cursor gains a multiple of the pool's size, wraps taken off |
| CredentialPool.InterleavingDecides | crates/heterion-router-gateway/src/grok_cli.rs:490-515 | unless a wrap falls into the call and shows, that is: the selections made on the pool from one attempt to a later one are never a multiple of its size |
| CredentialPool.AloneIsSuccessive | crates/heterion-router-gateway/src/grok_cli.rs:233-241 | without other callers the attempts are successive selections |
| CredentialPool.TakingTurnsMissesSlots | crates/heterion-router-gateway/src/grok_cli.rs:490-515 | when as many callers as there are credentials take turns, a call tries one of them every time and misses the others |
| CredentialPool.Pool.RefreshAfterUnauthorized | crates/heterion-router-gateway/src/grok_cli.rs:253-393 | the refresh of one slot in one go: its result or its error, and the slots it leaves; an exchange that goes through leaves the slot under its own row with the new access token and expiry and the rotated refresh token, or the old one if none came |
| CredentialPool.RefreshIsItsSteps | crates/heterion-router-gateway/src/grok_cli.rs:261-313 | a caller that holds the lock gets exactly there by steps of its own, and lets go of the lock |
| CredentialPool.Pool.NextCredential | crates/heterion-router-gateway/src/grok_cli.rs:233-241 | round robin: the slot under the cursor, which moves on by one |
| CredentialPool.Pool.UpdateCredential | crates/heterion-router-gateway/src/grok_cli.rs:243-251 | one slot changes in place, and an index beyond the pool changes none |
| CredentialPool.Pool.Complete | crates/heterion-router-gateway/src/grok_cli.rs:490-515 | among other callers' selections, the call is served by its first attempt that does not fail, or fails after as many as there are credentials, with the last one's error |
| CivilCalendar.CivilCopiesAgree | crates/heterion-router-gateway/src/grok_cli.rs:54-70 | truncated and Euclidean division give the same date for every day |
| CivilCalendar.DayCountCopiesAgree | crates/heterion-router-db/src/repos.rs:514-521 | the credential copy always agrees, the copy with months modulo twelve if and only if the month is within -9 to 14 |
| CivilCalendar.DayCountFollowsCalendar | crates/heterion-router-gateway/src/budgets.rs:509-516 | the day count starts at the epoch and the calendar's next day always counts one more |
| CivilCalendar.DayCountOrdersDates | crates/heterion-router-gateway/src/budgets.rs:509-516 | earlier dates, and only they, have smaller day counts |
| CivilCalendar.CivilAndDaysAreInverse | crates/heterion-router-gateway/src/budgets.rs:509-535 | every day has one valid date and every valid date one day, over all integers |
| Timestamps.RfcRoundTrip | crates/heterion-router-gateway/src/credentials.rs:128-170 | the credential loader reads a printed expiry back exactly, from year 0 on and never before |
| Timestamps.DbRoundTrip | crates/heterion-router-db/src/repos.rs:487-546 | the key store reads it back exactly, from 1970 on and never before |
| Timestamps.ZonedStampsAgree | crates/heterion-router-db/src/repos.rs:487-546 | the key store reads date, clock, optional fraction and offset of every stamp with a zone hh:mm, hhmm or hh; the credential loader reads the same if and only if the zone has a colon or is a west zone of no offset behind a fraction, and otherwise nothing or, in the west behind a fraction, UTC |
| Timestamps.SecondsMayLack | crates/heterion-router-gateway/src/credentials.rs:128-170 | a stamp that stops at the minute is second 0 to the credential loader, and none to the key store |
| KeyStoreStamps.KeyStoreReads | crates/heterion-router-db/src/repos.rs:487-572 | the key store reads a date, a space or a T, a clock with or without a fraction, and no zone, a Z or z, or a sign with hh:mm, hhmm or hh, whatever space is around it, if and only if month, day, hour, minute, second up to 60 and zone are in range; and reads just those numbers |
| KeyStoreStamps.PartsAreThree | crates/heterion-router-db/src/repos.rs:490-514 | a date or a clock of other than three parts is refused |
| KeyStoreStamps.SameFieldsInRange | crates/heterion-router-gateway/src/credentials.rs:128-170 | of stamps in UTC joined by a T the two parsers read the same fields if and only if all are in range: the credential loader checks none |
| Timestamps.StampsAgree | crates/heterion-router-db/src/repos.rs:508-521 | both add the same fields up to the same moment, the offset taken off, if and only if the month is within -9 to 14 |
| Timestamps.PrintedParts | crates/heterion-router-gateway/src/grok_cli.rs:42-52 | the printer prints a valid date and clock that add up to the epoch |
| Timestamps.PrintedShape | crates/heterion-router-gateway/src/grok_cli.rs:42-52 | up to the year 9999 a printed expiry is 24 characters long, its separators and its zone each in their place |
| Periods.StartIsGreatestBoundary | crates/heterion-router-gateway/src/budgets.rs:490-506 | a window starts at the greatest midnight, Monday midnight or first of a month that is not after now |
| Periods.StartsAreMonotone | crates/heterion-router-gateway/src/budgets.rs:490-506 | starts never go back and are their own starts |
| Periods.WindowIsExact | crates/heterion-router-gateway/src/budgets.rs:490-506 | exactly the times up to the window's length share its start, and the next window begins there |
| Periods.WindowLengths | crates/heterion-router-gateway/src/budgets.rs:490-506 | 1 day, 7 days, 28 to 31 days |
| Periods.DayStartsLast | crates/heterion-router-gateway/src/budgets.rs:490-506 | weeks and months start at the start of a day, so the day's window is the innermost |
| BudgetLedger.ThresholdIsClamped | crates/heterion-router-db/src/budget_repos.rs:138-143 | a finite threshold becomes the usable fraction nearest to it, and outside (0, 1] never the default |
| BudgetLedger.UnusableBecomesDefault | crates/heterion-router-db/src/budget_repos.rs:133-143 | an unusable threshold becomes the default if and only if it is not finite |
| BudgetLedger.MinPositiveIsAPower | crates/heterion-router-db/src/budget_repos.rs:133-143 | the smallest usable threshold is 2^-1022 |
| BudgetLedger.BookingAdds | crates/heterion-router-db/src/budget_repos.rs:262-270 | one booking adds its cost to a key's spend if and only if it is the key's, not before the window and finite, and otherwise nothing; an empty ledger sums to zero |
| BudgetLedger.SinceIsTheWindow | crates/heterion-router-db/src/budget_repos.rs:262-270 | the spend since a start is what was booked from there to any end after the last booking |
| BudgetLedger.Database.RecordCost | crates/heterion-router-db/src/budget_repos.rs:244-256 | one row is appended, a cost that is not finite as zero |
| BudgetLedger.Database.MarkWarningEmitted | crates/heterion-router-db/src/budget_repos.rs:287-299 | only the stamp of one key's row changes |
| BudgetLedger.Judge | crates/heterion-router-gateway/src/budgets.rs:423-453 | the verdict is the one judged: first cap reached, else first one near, else allowed; an unreadable sum serves unless a cap before it was reached |
| BudgetLedger.JudgedOnce | crates/heterion-router-gateway/src/budgets.rs:423-453 | there is only one such verdict |
| BudgetLedger.Evaluate | crates/heterion-router-gateway/src/budgets.rs:412-454 | no row or no readable row is allowed, any other gets that verdict on the ledger's sums |
| BudgetLedger.BlockedMeansRefused | crates/heterion-router-gateway/src/budgets.rs:423-453 | whichever sums fail to be read, a key is blocked if and only if a cap is reached before the first failing sum |
| BudgetLedger.BlockedMeansExhausted | crates/heterion-router-gateway/src/budgets.rs:423-446 | with readable sums a key is blocked if and only if it is over one of its caps |
| BudgetLedger.RefusedAtTheLimit | crates/heterion-router-gateway/src/budgets.rs:423-446 | with readable sums a key is blocked if and only if some period's spend reaches the row's finite positive limit for it |
| BudgetLedger.WarnsAtTheThreshold | crates/heterion-router-gateway/src/budgets.rs:423-453 | with readable sums a warning's spend has reached the limit times the row's own threshold, and with an allowance no period's has |
| BudgetLedger.UncappedSumsDoNotCount | crates/heterion-router-gateway/src/budgets.rs:423-431 | a period without a cap is not summed: whether its sum could be read changes no verdict |
| BudgetLedger.VerdictIsTheKeysOwn | crates/heterion-router-gateway/src/budgets.rs:412-454 | two ledgers with the same bookings of a key, whatever others booked, give it the same verdict |
| BudgetLedger.VerdictNamesAConfiguredCap | crates/heterion-router-db/src/budget_repos.rs:71-77 | a refusal or warning names the limit configured for its own period and the spend against it; a row without a usable limit never refuses or warns |
| BudgetLedger.DayWithinWeekAndMonth | crates/heterion-router-db/src/budget_repos.rs:262-270 | without refunds to the key its day's spend is at most its week's and its month's |
| BudgetLedger.ExhaustedUntilWindowEnds | crates/heterion-router-gateway/src/budgets.rs:431-446 | without refunds to it a key over a cap stays over it until that window ends |
| BudgetOvershoot.Enforce | crates/heterion-router-gateway/src/budgets.rs:204-286 | the rate limit comes first and spends its slot; behind it the admission rule of the runs, failing reads included, is the verdict the method reaches: no readable row serves, and with readable sums a key is refused if and only if some period's limit of its row is reached |
| BudgetOvershoot.StepKeepsBound | crates/heterion-router-gateway/src/budgets.rs:204-286 | booked spend plus a reserve for each request in flight stays below the cap plus k reserves and one for each unchecked arrival, step by step |
| BudgetOvershoot.OvershootIsBounded | crates/heterion-router-gateway/src/budgets.rs:204-286 | in every interleaving, a window's spend stays below L + (k + u) * C for costs of the key up to C, at most k of its requests in flight, and u of its arrivals that met a failing read |
| BudgetOvershoot.OvershootIsReached | crates/heterion-router-gateway/src/budgets.rs:204-286 | from any admitted spend, k concurrent requests do add k * C |
| BudgetWarnings.WarnOnce | crates/heterion-router-gateway/src/budgets.rs:462-483 | a warning goes out exactly when the row was never stamped or its stamp names another window, and the stamp can be written; then it names this window and moment, and no cap changes |
| BudgetWarnings.WarnAll | crates/heterion-router-gateway/src/budgets.rs:462-483 | warning after warning, with stamps that can fail: each goes out exactly if its stamp can be written and its window is not that of the last warning that could be stamped, or of the row's own stamp |
| BudgetWarnings.GoesOutOnChange | crates/heterion-router-gateway/src/budgets.rs:462-483 | that is: if it can be stamped and is an emission among the warnings that can |
| BudgetWarnings.EmittedOnChange | crates/heterion-router-gateway/src/budgets.rs:468-473 | over a run, a warning goes out exactly where its window differs from the previous warning's |
| BudgetWarnings.WarnsOncePerWindow | crates/heterion-router-gateway/src/budgets.rs:456-483 | no window is warned for twice if and only if no window's warnings are interrupted by another's |
| BudgetWarnings.OneCapWarnsOnce | crates/heterion-router-gateway/src/budgets.rs:412-483 | one cap and a clock that never goes back: once per window, and again in the next |
| BudgetWarnings.TwoCapsWarnTwice | crates/heterion-router-gateway/src/budgets.rs:412-483 | a ledger and three checks under a daily and a weekly cap that warn for one week twice |
| RateLimiter.Limiter.RetryAfter | crates/heterion-router-gateway/src/budgets.rs:380-399 | verdict and window map after one request |
| RateLimiter.RespondLeaves | crates/heterion-router-gateway/src/budgets.rs:380-399 | a request leaves the windows of other keys alone, but for those a minute old or older once there are more than 1024 |
| RateLimiter.SweepingIsInvisible | crates/heterion-router-gateway/src/budgets.rs:383-385 | over a clock that never goes back, the limiter that sweeps past 1024 keys answers every request as one that never does |
| RateLimiter.AdmittedBelowTwice | crates/heterion-router-gateway/src/budgets.rs:380-399 | a window's counter is exactly what it let through, at most the limit, and any 60 seconds let through at most 2 * limit - 1 |
| RateLimiter.BoundIsMet | crates/heterion-router-gateway/src/budgets.rs:380-399 | a run that lets through 2 * limit - 1 in 60 seconds |
| RateLimiter.RetryIsExact | crates/heterion-router-gateway/src/budgets.rs:394-396 | a refusal names 1 to 60 seconds, and that is the exact first moment the key is admitted again |
| CanonicalInjective.CanonicalIsInjective | crates/heterion-router-gateway/src/cache.rs:257-291 | two documents serialize alike if and only if they are the same JSON value, whatever the order of their members |
| CanonicalJson.SortedUnique | crates/heterion-router-gateway/src/cache.rs:263-280 | there is one sorted way to list a set of keys |
| CanonicalJson.WriteCanonical | crates/heterion-router-gateway/src/cache.rs:263-291 | the writer appends exactly the canonical text to its buffer |
| CanonicalText.CanonicalSpells | crates/heterion-router-gateway/src/cache.rs:257-291 | the canonical text is the JSON value spelled by section 2 of RFC 8259 without whitespace: literals, decimal integers without leading zeros, strings that read back, items in order, members in the order of their keys |
| JsonStrings.QuotedReadsBack | crates/heterion-router-gateway/src/cache.rs:257-291 | a reader of section 7 of RFC 8259 gets every string back from its quotation, whatever follows it |
| JsonStrings.EscapeIsShortest | crates/heterion-router-gateway/src/cache.rs:257-291 | no characters that read as one character inside quotes are fewer than its escape |
| CacheKeys.SignatureUnique | crates/heterion-router-gateway/src/cache.rs:195-236 | signatures of answers and vectors take apart in one way and never coincide |
| CacheKeys.PathTagUnique | crates/heterion-router-gateway/src/cache.rs:247-249 | the three cacheable paths have tags none of which begins another |
| CacheKeys.ExactKeyIsTheRequest | crates/heterion-router-gateway/src/cache.rs:195-213 | two requests share a key if and only if namespace, path and JSON value agree |
| CacheKeys.RangeIsPrefix | crates/heterion-router-db/src/cache_repos.rs:196-202 | the scanned range is exactly the strings with the prefix, for every prefix that ends below U+00FF, and empty for any other |
| CacheKeys.RangeIsolates | crates/heterion-router-db/src/cache_repos.rs:237-261 | a vector is in a caller's range if and only if its namespace and verb are the caller's |
| CacheTable.Table.PutAnswer | crates/heterion-router-db/src/cache_repos.rs:97-122 | insert or replace one row, hits kept |
| CacheTable.Table.ExactHit | crates/heterion-router-gateway/src/cache.rs:568-584 | the live body, and one hit booked with the tokens the row holds |
| CacheTable.Table.Sweep | crates/heterion-router-db/src/cache_repos.rs:161-166 | the expired rows leave, and their number is returned |
| CacheTable.GetIsLatestPut | crates/heterion-router-db/src/cache_repos.rs:97-166 | over any history, a read gives the latest write to its signature if and only if that write lives, with the tokens booked since |
| CacheTable.PutsDecide | crates/heterion-router-db/src/cache_repos.rs:147-166 | hits and sweeps do not change which write is the latest |
| CacheTable.HitsDoubleTheSaving | crates/heterion-router-gateway/src/cache.rs:568-584 | k live reads, each at its own time and mixed with late ones, multiply the saving by 2^k and change nothing else but the count |
| CacheTable.SavingIsPerHit | crates/heterion-router-gateway/src/cache.rs:568-584 | that is one saving per serving if and only if the row saves nothing or was hit at most once |
| CacheTable.HitsSurviveWritesNotSweeps | crates/heterion-router-db/src/cache_repos.rs:103-109 | a write keeps the hit count, a sweep before it loses an expired row's |
| ResponseCache.RunIsAccounted | crates/heterion-router-gateway/src/cache.rs:674-776 | after any run every row is what some successful, complete, error-free JSON answer to a cacheable question left there |
| ResponseCache.OnlySuccessesAreStored | crates/heterion-router-gateway/src/cache.rs:674-776 | a store writes its question's rows if and only if question and answer are such and one of them names a model, and otherwise leaves the table alone: the answer row whole, the vector row if there is a vector and the question offers no tools; every other row stays if it lives and goes if not |
| ResponseCache.ReadsBookHits | crates/heterion-router-gateway/src/cache.rs:568-584 | a read of a live row counts one hit and adds its saving to itself, and no other row changes |
| ResponseCache.ExactHitReplays | crates/heterion-router-gateway/src/cache.rs:568-584 | every exact hit replays a live answer of status 200 to 299, of known size up to 16 MiB, JSON without an error member, to the same question, a POST that asks for no stream, in the same namespace |
| ResponseCache.StoredAnswerIsServed | crates/heterion-router-gateway/src/cache.rs:674-776 | a stored answer keeps its row for its whole lifetime unless the same question is stored again |
| ResponseCache.SameQuestionHits | crates/heterion-router-gateway/src/cache.rs:568-584 | the same question finds that row if and only if it has not expired |
| ResponseCache.Nearest | crates/heterion-router-db/src/cache_repos.rs:268-279 | the best candidate at or above the threshold, the last one on a tie |
| ResponseCache.SemanticHitIsIsolated | crates/heterion-router-gateway/src/cache.rs:588-642 | whatever neighbour is picked, the answer served is alive, a stored success of the caller's own namespace and verb, and the last one stored to its question; it is of the model asked for if and only if the question names one, or its last answer and its last answer stored with a vector name the same |
| ResponseCache.RowsAreLast | crates/heterion-router-gateway/src/cache.rs:674-776 | after any run a question's answer row is its last store's and its vector row the last vector's |
| ResponseCache.StaleVectorServesAnotherModel | crates/heterion-router-gateway/src/cache.rs:674-776 | a question stored twice, the second time without a vector: both rows live, and they name one model if and only if the question named one or both answers name the same |
| SignatureRestart.ThoughtSignatures.Record | crates/heterion-router-gateway/src/gemini.rs:221-268 | the store takes the pair and evicts the oldest, and the line is offered to the writer |
| SignatureRestart.ThoughtSignatures.Open | crates/heterion-router-gateway/src/gemini.rs:128-172 | a store over a file that is absent, not text or readable starts as what its file would load as again |
| SignatureRestart.ThoughtSignatures.Load | crates/heterion-router-gateway/src/gemini.rs:173-197 | loads the whole pairs, trims once, rewrites the file if that works |
| SignatureRestart.ThoughtSignatures.Rewrite | crates/heterion-router-gateway/src/gemini.rs:200-219 | the file becomes one line per kept id, oldest first |
| SignatureStore.TrimmedFits | crates/heterion-router-gateway/src/gemini.rs:189-193 | what is kept are the newest 4096 ids in order, with their values |
| SignatureStore.RecordedFits | crates/heterion-router-gateway/src/gemini.rs:221-236 | no id twice, list and map agree, at most 4096, and the recorded pair is in |
| SignatureStore.RewriteThenLoad | crates/heterion-router-gateway/src/gemini.rs:166-219 | rewriting then loading gives back order and values exactly |
| SignatureStore.RewriteAfterLoad | crates/heterion-router-gateway/src/gemini.rs:166-219 | what was loaded and rewritten loads as the same store again, from any file |
| SignatureStore.RecordKeepsSync | crates/heterion-router-gateway/src/gemini.rs:174-195 | a record whose line is appended keeps log and store together if and only if the pair is whole and the id was not evicted |
| SignatureStore.UnloggedKeepsSync | crates/heterion-router-gateway/src/gemini.rs:221-268 | a record whose line is not appended does if and only if the store held that very pair |
| SignatureStore.InSyncStep | crates/heterion-router-gateway/src/gemini.rs:221-268 | one record, appended or not, keeps log and store together if and only if its case of the two conditions holds |
| SignatureStore.ReplayIsLive | crates/heterion-router-gateway/src/gemini.rs:166-268 | for any file and any records with any of their lines missing, replaying the log gives the live store at every moment if and only if every record was such |
| SignatureStore.LastDecides | crates/heterion-router-gateway/src/gemini.rs:166-268 | the first record that was not such is where they come apart |
| SignatureStore.LoadIsLive | crates/heterion-router-gateway/src/gemini.rs:166-268 | at any one moment, for any file and any records, the file loads as the live store if and only if the 4096 ids first written last are, in order, the 4096 taken in last, and each one's last whole line is its latest record |
| SignatureStore.LiveOrder | crates/heterion-router-gateway/src/gemini.rs:221-236 | the store lists the ids taken in last, an id pushed out counting again |
| SignatureStore.SyncCanReturn | crates/heterion-router-gateway/src/gemini.rs:174-236 | a history that comes apart and is together again one record later |
| SignatureStore.EvictedIdIsLostOnReload | crates/heterion-router-gateway/src/gemini.rs:174-236 | a history, every line appended, whose reload differs from the live store |
| SignatureStore.UnloggedIdIsLostOnReload | crates/heterion-router-gateway/src/gemini.rs:242-268 | a new id whose line is not appended is lost, after any number of others |
| SignatureStore.KnownIsLatest | crates/heterion-router-gateway/src/gemini.rs:221-294 | what the store knows of an id is the signature of its latest record |
| SignatureWriter.WriteBehind.Append | crates/heterion-router-gateway/src/gemini.rs:242-268 | queues the line or, at full depth, drops and counts it |
| SignatureWriter.OfferIsBounded | crates/heterion-router-gateway/src/gemini.rs:242-268 | a line joins the queue while fewer than 256 messages wait, and else it is dropped and counted |
| SignatureWriter.WriteBehind.Handle | crates/heterion-router-gateway/src/gemini.rs:137-145 | the writer appends a line or answers a flush |
| SignatureWriter.WriteBehind.AwaitFlush | crates/heterion-router-gateway/src/gemini.rs:275-284 | a flush waits for room and for its answer; by then every accepted line is settled, whichever appends work |
| SignatureWriter.StepKeeps | crates/heterion-router-gateway/src/gemini.rs:100-147 | every step of producers, flushers and the writer keeps the queue invariant |
| SignatureWriter.NothingIsLost | crates/heterion-router-gateway/src/gemini.rs:242-289 | accepted lines are the settled ones, the one in hand and the queue, in order; recorded is accepted plus dropped; the queue keeps its depth |
| SignatureWriter.FlushIsABarrier | crates/heterion-router-gateway/src/gemini.rs:275-284 | when a flush is answered every line accepted before it is settled, and in the file in order if appends succeed |
| SignatureWriter.WriterCatchesUp | crates/heterion-router-gateway/src/gemini.rs:137-145 | left alone the writer settles every accepted line and answers every flush |
| SignatureRestart.RunJoins | crates/heterion-router-gateway/src/gemini.rs:221-268 | every run of recording threads, hand-overs and writer keeps store, queue and file joined: the store is the live one of the records, the queue took the accepted lines, the rest were counted as dropped |
| SignatureRestart.ReloadNow | crates/heterion-router-gateway/src/gemini.rs:137-268 | at every moment of every run, with lines dropped, racing, failed or on their way, a restart would load the live store if and only if the file's lines and the records are alike in that sense |
| SignatureRestart.FileIsTheLog | crates/heterion-router-gateway/src/gemini.rs:137-268 | once the writer is done, the file is the log of the records and of how each line fared, and a restart loads the live store if and only if the two are together |
| SignatureRestart.GarbledFileLoadsNothing | crates/heterion-router-gateway/src/gemini.rs:166-197 | from a file that is there but not text on, a restart loads the live store if and only if nothing was recorded |
| SignatureRestart.FlushedHistory | crates/heterion-router-gateway/src/gemini.rs:275-284 | an answered flush with no line accepted since is such a moment |
| SignatureRestart.SettledReload | crates/heterion-router-gateway/src/gemini.rs:166-284 | with every earlier record kept, the settled file loads as the live store if and only if the last record keeps them together |
| SignatureRestart.EveryReload | crates/heterion-router-gateway/src/gemini.rs:166-284 | seen after each record, the settled file loads as the live store every time if and only if every record keeps them together |
| SignatureRestart.KeptReload | crates/heterion-router-gateway/src/gemini.rs:166-284 | records that all keep them together leave a file that loads as the live store |
| SignatureRestart.CleanHistory | crates/heterion-router-gateway/src/gemini.rs:242-268 | with nothing dropped and every append working, every record's line is in the file |
| SignatureRestart.DroppedIdIsLost | crates/heterion-router-gateway/src/gemini.rs:242-268 | 257 new whole pairs behind a stalled writer: the queue drops one, and a restart loses it |
| SignatureRestart.RacingThreadsDisagree | crates/heterion-router-gateway/src/gemini.rs:221-238 | two threads record one id, the lines change places, and a restart loads the older signature |
| SignatureRestart.OneFlushIsNotEnough | crates/heterion-router-gateway/src/gemini.rs:221-284 | a run with an answered flush, nothing dropped and every append working that loads as the live store although a record did not keep them together |
| ComboModels.Slug | crates/heterion-router-db/src/repos.rs:688-704 | the loop with its early stop computes the slug |
| ComboModels.SluggedIsSlug | crates/heterion-router-db/src/repos.rs:688-704 | at most 40 letters, digits and single inner dashes |
| ComboModels.SlugIsItsWords | crates/heterion-router-db/src/repos.rs:688-704 | the slug is the text's words joined by dashes, cut after 40 characters, without a dash at the cut |
| ComboModels.TakeId | crates/heterion-router-db/src/repos.rs:722-726 | the suffix loop ends and yields the fresh id |
| ComboModels.FreshIdIsFirstFree | crates/heterion-router-db/src/repos.rs:722-726 | that id is free and is the first free of base, base-2, base-3 and so on |
| ComboModels.IdsAreDistinct | crates/heterion-router-db/src/repos.rs:706-726 | all ids of a rewrite differ |
| ComboModels.RenderModelItems | crates/heterion-router-db/src/repos.rs:683-761 | one item per spec in order, then the surviving items of other kinds; the i-th id is the spec's own, trimmed, or else combo slug, -model-, i + 1, provider slug and model slug, with the first of -2, -3 and so on that makes it new |
| ComboModels.SurvivorsAre | crates/heterion-router-db/src/repos.rs:748-759 | an item stays verbatim if and only if it names a kind other than model and no spec took its id |
| ComboModels.UnknownKeysStay | crates/heterion-router-db/src/repos.rs:727-738 | a rewritten model keeps every key the gateway does not model from the first previous item of its id, and gains none if that was no model |
| ComboModels.ParseComboRich | crates/heterion-router-gateway/src/combos.rs:92-143 | the parser keeps the usable entries in order and refuses a combo without any |
| ComboModels.ParseItemIsExact | crates/heterion-router-gateway/src/combos.rs:92-143 | an item is read as an entry if and only if it names no other kind, its model and its provider are not empty, the provider given or else what stands before the first slash, with its id and its weight or 0 |
| ComboModels.ItemReadsBack | crates/heterion-router-gateway/src/combos.rs:67-75 | an item reads back as its spec if and only if the spec is readable |
| ComboModels.RewriteReadsBack | crates/heterion-router-db/src/repos.rs:683-761 | a rewritten combo parses back to its specs in order if and only if every spec is readable |
| ComboModels.ReadThenWriteIsStable | crates/heterion-router-db/src/repos.rs:661-668 | reading a rewritten combo and writing it back changes nothing |
| Base64Vectors.Encode | crates/heterion-router-gateway/src/embeddings.rs:652-676 | the chunk loop computes the base64 of the vector's bytes as section 4 of RFC 4648 defines it in bits |
| Base64Vectors.Decode | crates/heterion-router-gateway/src/embeddings.rs:691-707 | the 32-bit accumulator computes the unbounded definition on every text |
| Base64Vectors.PushSextet | crates/heterion-router-gateway/src/embeddings.rs:699 | the bits the accumulator shifts out were never pending |
| Base64Vectors.DecodesUnlessForeign | crates/heterion-router-gateway/src/embeddings.rs:679-699 | a text fails to decode if and only if it holds a character that is no digit of the alphabet, no padding and no ASCII whitespace |
| Base64Vectors.DecodeEncode | crates/heterion-router-gateway/src/embeddings.rs:652-707 | decoding the encoder's output gives every byte sequence back |
| Base64Vectors.EncodedLength | crates/heterion-router-gateway/src/embeddings.rs:657-675 | four characters for every three bytes begun |
| Base64Vectors.VectorSurvives | crates/heterion-router-gateway/src/embeddings.rs:652-723 | every vector of 32-bit patterns survives encoding, decoding and reading back |
| ToolCallDeltas.ToolCallIds.Normalize | crates/heterion-router-gateway/src/backend.rs:248-302 | the in-place edit of one chunk and what is remembered after it |
| ToolCallDeltas.NormalCallKeepsRest | crates/heterion-router-gateway/src/backend.rs:261-300 | nothing but id, type, name and arguments changes in a call |
| ToolCallDeltas.NormalChunkKeepsRest | crates/heterion-router-gateway/src/backend.rs:248-260 | beside its choices a chunk stays as it is, and it has as many as before |
| ToolCallDeltas.NormalChoiceKeepsRest | crates/heterion-router-gateway/src/backend.rs:248-260 | beside its calls a choice stays as it is |
| ToolCallDeltas.StreamIsComplete | crates/heterion-router-gateway/src/backend.rs:237-302 | over a whole stream every well-formed call comes out with string id, type, name and its own arguments, its id and name the latest non-empty ones of the calls with its unsigned index, a call without one counting as its place, or else the stand-ins |
| ToolCallDeltas.OthersChangeNothing | crates/heterion-router-gateway/src/backend.rs:264-268 | calls of other indexes never change what a call comes out as |
| ToolCallDeltas.NormalStreamIsFixed | crates/heterion-router-gateway/src/backend.rs:248-302 | normalizing a normalized stream changes nothing, from any remembered state |

## Left out

- HTTP, server-sent-event bytes, async runtime, authentication, CORS, admin pages: only the order of steps they impose is kept.
- SQLite: tables are maps, sequences and sums with the stated predicates, each call atomic; a failed budget read or stamp is a parameter.
- SHA-256 and the namespace derived from it: hashing is a function that the cache theorems assume collision free and free of colons; its truncation to a namespace is not modelled.
- Floating point: money and scores are reals, so rounding, NaN sums and the float comparison of `cosine` are not captured; `cosine` itself is a parameter of `Nearest`.
- Message ids, sanitized error texts and the bookkeeping of streamed usage in the Anthropic endpoint.
- Integer overflow of 64-bit counters and of times near their limits; the 32-bit block index wraps.
- CredentialRefresh.EachGenerationReplacedOnce: an issuer that reissues a token is excluded.
- CredentialPool.Pool.Complete: how an attempt ends is a parameter of the attempt and its slot; the calls and retries behind it are in `CredentialRefresh`.
- Timestamps.ParseZoneOffset: works on characters where the code slices bytes; zones with characters beyond ASCII, which the code refuses or fails to slice, are all refused here.
- BudgetOvershoot.OvershootIsBounded: assumes no refunds to the key and unchanged budgets during the run; with refunds the ledger sum is not monotone.
- BudgetWarnings.WarnsOncePerWindow: speaks of the warnings whose stamp could be written, on a row that is not reconfigured in between; a week and a day that start at the same Monday midnight count as one window, as they do in the code.
- RateLimiter.SweepingIsInvisible: limits stay as configured, and the process does not restart.
- ResponseCache.SemanticHitIsIsolated: which neighbour wins is only constrained by `Nearest`; embeddings are parameters.
- SignatureRestart.EveryReload: the lines reach the writer in the order the store took the pairs, which only one recording thread guarantees; with more, `RacingThreadsDisagree` is what can happen and `ReloadNow` what holds.
- SignatureWriter.FlushIsABarrier: an append is all or nothing, and the writer thread was started.
- ComboModels.RenderModelItems: lower-casing is a parameter, since Unicode case mapping is not modelled; the order of keys inside a JSON object is not either.
- Base64Vectors.Decode: texts are characters, so every byte of a multi-byte character counts as one foreign character.
- Code outside the modelled files: routing, the responses endpoint, translation between provider formats, stream accounting.
