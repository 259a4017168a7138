# Verification of the local inference gateway

A Dafny 4.11 model of the gateway's two hard parts, with proofs.

**The durable request lifecycle.** Any number of request threads run the inference operation against one in-memory lane
and one durable table of request rows. `RequestTable` gives the effect of every committed transaction on the table, and
`Gateway` turns the gateway into a state machine: a step is the next atomic step of some thread, of maintenance, of an
acknowledgement or of a crash with restart, together with everything the environment decides in it. Every sequence of
steps is a run, so a statement about `Run(cfg, steps)` for all `steps` covers every interleaving. `RequestStores` and
`GatewayServices` are the program's own shape, classes that change their fields in place; the store's methods are proved
against the transactions, and whatever the service does, with arbitrary steps of other threads in between, is proved to be
part of a run. `Routing` is one call of the worker: its exceptions, its single completion request, and the choice between
primary and fallback against a moving deadline. `Deployments` is the worker that the program starts with, the primary alone
or both. `Submissions` joins the lifecycle and the calls: after a completion request that may have been accepted, none
follows. The service makes its calls on such a worker and keeps their traces, so this is proved of the service itself.

`Transactions` says of every transaction what it answers and changes, column by column, and `Replies` of every step what the
caller is told, by code and status, without the functions that compute it. `Credentials`, `Retries` and `Answers` carry
this over to runs: results stay with their credential, a declined request is worked on when it is repeated, and a request
that is let through and worked on in time ends with its result.

`GatewayInvariant` holds the invariant of every run, `Endings` that a call returns once, `Replay` where answers come from,
`Capacity` and `Expiries` what the limits and the expiry guarantee, `Tombstones` and `Execution` what deleted rows are
remembered for. `Retention` and `Ownership` decide two guarantees by the retention setting; `Passages` are the pieces their
counterexample runs are put together from.

**The schema and encoding engine.** `Json` has objects as sequences of named fields and exact decimals, with an explicit
equality up to object order and number spelling. `Decimals`, `NumberTexts`, `StringTexts`, `Encoding` and `Canonical` are
the canonical encoder, an independent reader of RFC 8259 and the proof that the encoding is the identity of a value.
`Schemas`, `Admissions`, `Budgets` and `WorkBounds` are the static cost analysis of response schemas and what it really
bounds; `SupportedSchemas` decides admission by a second definition that reads the keywords directly. `SchemaPositions`,
`KeyOrders`, `DecoderSchemas`, `DecoderLaws`, `DecoderOrders`, `DecoderMeaning`, `DecoderIdentity`, `EquivSchemas` and
`WireIdentity` are the decoder order, where it puts each name, what it preserves, and the theorem that equal digests mean
equal bytes for the worker. `WireDocuments` reads those bytes, and the digested ones, back and says what stands in them.

`dafny verify dfyconfig.toml` checks everything.

## What the proofs show about the code

- The settings do not force the tombstone retention to reach the maximum request lifetime
  (src/local_inference_gateway/config.py:295-304). Exactly when it does not, a request can be inserted and executed twice:
  `Retention.RetentionDecides` is the equivalence, `Retention.ShorterRetentionRepeats` the run. The defaults satisfy it.
- Marking a row as in progress looks at the request id and the reserved state alone
  (src/local_inference_gateway/store.py:346-361): neither owner nor digest fences it. Exactly when the retention is shorter
  than the lifetime, a thread that stalls between its admission and its claim of the lane can mark the row of another
  caller's later request under the same id, and the other caller is answered with what the worker produced for the first:
  `Ownership.OwnershipDecides` is the equivalence, `Ownership.ShorterRetentionMixesCallers` the run.
- What concerns one row (its columns and life cycle, one accepted call, stable replays, capacity, expiry) needs no
  assumption about clocks or settings.

## Assumptions

- There is one process, and `initialize` runs before any request.
- The clock readings that successive transactions use do not decrease; only the statements about requests across rows
  (`Retention`, `Ownership`, `Execution`, `Tombstones`, `Submissions.NoRequestAfterAnAcceptedOneEver` and
  `GatewayServices.ServiceRepeatsOnlyRefusedEver`) use this. Limits, lifetime and retention are fixed across restarts.
- SHA-256 is injective, AES-GCM an ideal cipher that opens exactly with matching associated data, attempt ids are fresh.
- Expiry texts have four-digit years and ASCII digits; instants are in microseconds.
- The timer around a dispatch starts at the clock reading that computed its length; an answer that comes after the
  limit is an interruption.

## Model

| member | source | states |
|---|---|---|
| `Retention.RetentionDecides` | src/local_inference_gateway/config.py:295-304 | Over all runs with non-decreasing clock readings, no (id, digest) pair is ever inserted twice, and no request is sent to the worker again after a call that was not declined, if and only if the tombstone retention is at least the maximum lifetime (admission limits of at least 1, as the settings demand) |
| `Retention.ShorterRetentionRepeats` | src/local_inference_gateway/store.py:518-536 | For every retention below the lifetime, a concrete run with fractional clock readings that inserts and executes one request twice |
| `Execution.RetainedMeansOnce` | src/local_inference_gateway/app.py:174-252 | With retention at least the lifetime: through every interleaving, retry, crash, expiry and deletion, each request is inserted once, and a later call for it follows only calls that ended with the worker unavailable |
| `Tombstones.ForgottenHasExpired` | src/local_inference_gateway/store.py:518-536 | The tombstone arithmetic in whole seconds: a row that cleanup forgets at `now` has expired by `now`, although the admissible expiry is rounded up to a whole second |
| `Tombstones.NextKeepsMemory` | src/local_inference_gateway/store.py:287-307 | Every step keeps: until its expiry, an inserted request has a row, live or as a tombstone, so that it is never inserted again |
| `Lanes.RowsExecuteOnce` | src/local_inference_gateway/store.py:346-383 | In every run, without any assumption on clocks or settings: between two calls for one row the earlier attempt ended as unavailable |
| `GatewayInvariant.RunKeepsInv` | src/local_inference_gateway/app.py:180-252 | The inductive invariant that ties threads, lane, rows and call history holds after every run |
| `GatewayInvariant.RestartKeepsInv` | src/local_inference_gateway/store.py:206-213 | A crash and `initialize` at any point keep the invariant: work in progress becomes ambiguous, so that a call that was cut off is never repeated |
| `Lanes.LaneAndRowsAgree` | src/local_inference_gateway/app.py:349-360 | At most one thread owns the lane, at most one row is in progress and it is the owner's under its attempt; a free lane means nothing is in progress; an owner that is about to release has committed its outcome |
| `Lanes.WokenAttemptIsSettled` | src/local_inference_gateway/app.py:371-398 | A thread that waited for an attempt and woke never finds its row in progress under that attempt |
| `Lanes.JoinersAgreeWithTheOwner` | src/local_inference_gateway/app.py:362-398 | A joiner that may read a completed row returns the response that every caller of that row got, without any worker call |
| `Ownership.OwnershipDecides` | src/local_inference_gateway/store.py:346-361 | Over all runs with non-decreasing clock readings, the worker is called only for the owner and digest that the row of the call was inserted with, and every answer is what such a call produced, if and only if the tombstone retention is at least the maximum lifetime (admission limits of at least 1) |
| `Ownership.ShorterRetentionMixesCallers` | src/local_inference_gateway/store.py:346-361 | For every retention below the lifetime, a concrete run in which a stalled thread of owner o calls the worker on owner p's row of the same id, and p is answered with the content of that call, which is no call for p's digest |
| `Ownership.CallsWorkOnTheirOwnRow` | src/local_inference_gateway/app.py:187-200 | With retention at least the lifetime: whenever the second expiry check passes in a run, the row is in progress for exactly this attempt and has the owner and the digest of the calling thread, although marking a row checks neither |
| `Replay.ReplaysAreStable` | src/local_inference_gateway/app.py:227-243 | In every run, without any assumption on settings: all completed responses for one row are equal and are what one call recorded on that row returned, with the deployment and policy version of the process that stored it, whatever later processes run with; a row is stored once. Whose request that call was for is OwnershipDecides |
| `Replay.CompletedRowsOpen` | src/local_inference_gateway/store.py:110-132 | In every run the ciphertext of a completed row opens |
| `ResultCiphers.AssociatedDataIsInjective` | src/local_inference_gateway/store.py:110-114 | The newline-joined associated data determines id, owner and digest, given that ids and owner hashes hold no newline |
| `RowLaws.StaleAttemptChangesNothing` | src/local_inference_gateway/store.py:363-410 | An attempt that no longer owns its row changes no row; a late completion at most performs the cleanup |
| `RowLaws.CompleteEvolves` | src/local_inference_gateway/store.py:412-450 | Completion moves rows only along life-cycle edges and keeps the columns consistent with the status |
| `RowLaws.AcknowledgeEvolves` | src/local_inference_gateway/store.py:461-494 | Acknowledgement moves rows only along life-cycle edges; output goes and a disposition comes exactly with the acknowledged state |
| `RowLaws.InitializeEvolves` | src/local_inference_gateway/store.py:178-213 | Start-up leaves nothing in progress and keeps every row law |
| `Transactions.AcknowledgeDecides` | src/local_inference_gateway/store.py:461-494 | Only the row's own credential acknowledges, only a completed row, and only once with the same disposition: another credential is forbidden, another disposition conflicts, a repeat gives the stored answer, an expired or unfinished row is refused; the output goes, and a refusal leaves the table as it was |
| `Transactions.AcknowledgesOnce` | src/local_inference_gateway/store.py:474-482 | After an acknowledgement, however much later: the same disposition gives the same answer again, the other one conflicts |
| `Credentials.AcknowledgementsStayWithTheirOwner` | src/local_inference_gateway/store.py:461-494 | In every run an acknowledgement changes nothing beyond the cleanup but a completed row of the very credential that acknowledges, whose output it takes off; of another credential's row it leaves the whole table as it was |
| `Credentials.CallersReadTheirOwn` | src/local_inference_gateway/store.py:507-516 | In every run, whatever the settings: whoever is answered is answered from a row that was inserted for its own id, credential and digest |
| `Transactions.AdmitDecides` | src/local_inference_gateway/store.py:280-329 | Who is admitted to what: another credential is forbidden and another digest conflicts before anything else; a fresh row needs an expiry ahead and room in both limits, counted over the rows reserved, in progress, completed or ambiguous, and comes with every column given; every refusal leaves the table as it was |
| `Transactions.GetOwnedDecides` | src/local_inference_gateway/store.py:331-344 | Only the row's own credential reads it, and with a digest only for the same request; errors in that order, and each leaves the table as it was |
| `Transactions.MarkInProgressDecides` | src/local_inference_gateway/store.py:346-361 | Marking needs a reserved row and nothing else; anything else is rejected without a change |
| `Transactions.CompleteDecides` | src/local_inference_gateway/store.py:412-450 | A result for a row that is gone or expired is dropped, one for a row that is no longer the attempt's is rejected, and the attempt's own row takes it sealed for its id, owner and digest |
| `Transactions.FaultsDecide` | src/local_inference_gateway/store.py:363-410 | The three updates after a fault, column by column, change the attempt's own row in progress and no other |
| `Transactions.CleanupDecides` | src/local_inference_gateway/store.py:518-536 | The cleanup row by row, in microseconds: due rows give up their output, tombstones go once older than the retention, all others stay |
| `Transactions.InitializeDecides` | src/local_inference_gateway/store.py:206-213 | Start-up row by row: a row that was in progress expires if it is due and is ambiguous otherwise |
| `Expiries.NoExpiredOutputSurvives` | src/local_inference_gateway/store.py:518-536 | At the end of every run, whatever its clock readings: a row that had expired when the last cleaning transaction committed is a tombstone and holds neither ciphertext nor nonce nor media type |
| `Expiries.CommittedStepExpires` | src/local_inference_gateway/store.py:280-361 | After every step whose transaction commits at now (admission, read, mark, completion, acknowledgement, maintenance, start-up), every row with an expiry at or before the fractional now is a tombstone without output |
| `Expiries.CompleteExpires` | src/local_inference_gateway/store.py:412-450 | A completion that commits, stored or too late, leaves no expired output in the table, the completed row included |
| `Expiries.CleanupComparesTexts` | src/local_inference_gateway/store.py:518-536 | The cleanup's comparisons of stored texts and the comparisons of the table agree: expiry against now, and a tombstone's last update against the cutoff |
| `Capacity.RunsStayWithinLimits` | src/local_inference_gateway/store.py:308-329 | In every run the rows in open states stay within the total limit and, per owner, within the per-credential limit |
| `Capacity.OnlyInsertionsOpenRows` | src/local_inference_gateway/store.py:287-329 | In every run only the insertion of a fresh row raises either count; repeating a request never does |
| `Capacity.RunsAreTimely` | src/local_inference_gateway/app.py:182-195 | In every run no output is stored or read back at or after the expiry of its row |
| `Retries.DeclinedRequestsAreRetried` | src/local_inference_gateway/app.py:202-206 | In every run: when the worker declined a call, its caller is told to retry, the row is reserved again and the lane free, and the next repeat by the row's credential that comes in time makes a second worker call for the same row |
| `Retries.ReservedRequestsAreWorkedOn` | src/local_inference_gateway/app.py:174-200 | In every run: a repeat of a reserved request, with a free lane and its steps before the expiry, reaches the worker for that row |
| `Answers.RequestsAreAnswered` | src/local_inference_gateway/app.py:148-252 | In every run, whatever came before: a request that is fresh with room, or reserved, and goes through with the lane free, its steps before the expiry and a worker that produces a result, ends with exactly that result under the release that stored it, and with a free lane |
| `Replies.FaultReplies` | src/local_inference_gateway/app.py:202-226 | What a fault leaves behind and tells, in columns and codes: unavailable makes the row reserved again and answers a retryable 503, invalid output fails it for good with 502, anything else leaves it ambiguous with a retryable 504; no other row changes |
| `Replies.SubmissionReplies` | src/local_inference_gateway/app.py:150-173 | How a submission goes on, by code and status, over the order of the checks: expiry window, credential, digest, capacity, and each state of the row |
| `Replies.RowsAnswer` | src/local_inference_gateway/app.py:312-347 | What each stored row answers: a completed one what its ciphertext opens to under its own identity with its provenance, a failed one its error, an expired and an acknowledged one 409 and 410 |
| `Replies.ClaimReplies` | src/local_inference_gateway/app.py:174-178 | The lane is taken if free, awaited if it works on the same request, and otherwise the caller is told to come back |
| `Replies.WaitReplies` | src/local_inference_gateway/app.py:362-384 | Whom a joiner waits for, and that a wait ends with the attempt or with a timeout |
| `Replies.ReloadReplies` | src/local_inference_gateway/app.py:386-398 | After the wait: what the row answers, 503 when it is reserved again, else 504 |
| `Replies.PrepareReplies` | src/local_inference_gateway/app.py:182-186 | An owner whose request has expired answers 409 and marks nothing; a rejected transition leads to the recovery |
| `Replies.DispatchReplies` | src/local_inference_gateway/app.py:187-201 | The second expiry check: past it the worker is not called; before it the call is logged for the thread's own request |
| `Replies.ReturnReplies` | src/local_inference_gateway/app.py:200-201 | A call comes back with what the worker made of it, and changes neither table nor lane |
| `Replies.ResultReplies` | src/local_inference_gateway/app.py:227-250 | A result is stored, or told to be too late when the row is gone or expired, or given to the recovery, which leaves the attempt's row ambiguous and answers 504 |
| `Replies.CollectReplies` | src/local_inference_gateway/app.py:237-243 | The stored result as it is read back, 500 when there is none |
| `Replies.ReleaseReplies` | src/local_inference_gateway/app.py:356-360 | The reply goes to the caller, waiters of the attempt are woken, and the lane is freed if it is this claim's |
| `Replies.MaximumExpiryRoundsUp` | src/local_inference_gateway/app.py:292-296 | The latest admissible expiry is the first whole second at or after now plus the lifetime |
| `Strings.BeforeIsSmallerSomewhere` | src/local_inference_gateway/contracts.py:513-533 | The order that sorting uses is the code-point order: at the first difference the smaller character, or a proper prefix first |
| `Timestamps.TextOrderIsChronological` | src/local_inference_gateway/store.py:598-603 | The stored texts are ordered exactly as the whole seconds they denote |
| `Timestamps.ExpiryCheckIsExact` | src/local_inference_gateway/store.py:518-536 | Comparing stored texts decides exactly whether a whole-second expiry is at or before a fractional clock reading |
| `Timestamps.ReadsBack` | src/local_inference_gateway/store.py:598-603 | Parsing a stored text gives back the instant without its fraction |
| `RequestStores.RequestStore.CleanUp` | src/local_inference_gateway/store.py:518-536 | The UPDATE and DELETE in place give exactly the cleaned table |
| `RequestStores.RequestStore.Initialize` | src/local_inference_gateway/store.py:206-213 | Start-up in place: interrupted rows become ambiguous, then cleanup; nothing is left in progress |
| `RequestStores.RequestStore.Admit` | src/local_inference_gateway/store.py:280-329 | Admission in place with every error path rolled back: the table and the result are those of the transaction |
| `RequestStores.RequestStore.GetOwned` | src/local_inference_gateway/store.py:331-344 | Reading an owned row, cleanup included; an error restores the table |
| `RequestStores.RequestStore.MarkInProgress` | src/local_inference_gateway/store.py:346-361 | The conditional update of a reserved row; a refusal restores the table |
| `RequestStores.RequestStore.ResetReserved` | src/local_inference_gateway/store.py:363-372 | The fenced reset: only a row in progress under this attempt becomes reserved again |
| `RequestStores.RequestStore.MarkAmbiguous` | src/local_inference_gateway/store.py:374-383 | The fenced change to ambiguous |
| `RequestStores.RequestStore.MarkFailed` | src/local_inference_gateway/store.py:385-410 | The fenced change to failed with its error columns |
| `RequestStores.RequestStore.Complete` | src/local_inference_gateway/store.py:412-450 | The fenced completion, false and cleaned when the row is gone or expired, rolled back when the row is not the attempt's |
| `RequestStores.RequestStore.Acknowledge` | src/local_inference_gateway/store.py:461-494 | Acknowledgement in place, the credential checked first, rolled back on every refusal: table and result are those that AcknowledgeDecides fixes |
| `GatewayServices.GatewayService.Infer` | src/local_inference_gateway/app.py:148-252 | The whole operation against the store and the lane, with arbitrary steps of other threads in between, is part of a run, and ends with its own thread's reply; what its steps do is fixed in columns and codes by Replies and Transactions |
| `GatewayServices.GatewayService.ClaimLane` | src/local_inference_gateway/app.py:349-354 | The lane is claimed if and only if it was free; otherwise the present claim is returned |
| `GatewayServices.GatewayService.ReleaseLane` | src/local_inference_gateway/app.py:356-360 | The waiters are signalled and the lane freed in one step, and the reply is the one committed before |
| `GatewayServices.GatewayService.JoinActive` | src/local_inference_gateway/app.py:362-369 | Joining waits for the active attempt if it is this request's, and otherwise reads the row back |
| `GatewayServices.GatewayService.ReloadAfterAttempt` | src/local_inference_gateway/app.py:386-398 | What the row says after the attempt, as the reply of a finished thread |
| `GatewayServices.GatewayService.Attempt` | src/local_inference_gateway/app.py:181-245 | The try block: two expiry checks, the mark, the call, the outcome and the read-back, each a step of a run |
| `GatewayServices.GatewayService.SettleFault` | src/local_inference_gateway/app.py:202-226 | Each worker exception commits its own outcome before the thread goes on to release: in columns, the attempt's row becomes reserved, failed or ambiguous and no other changes; in codes, the caller gets 503, 502 or 504 |
| `GatewayServices.GatewayService.RecoverAmbiguous` | src/local_inference_gateway/app.py:246-250 | A rejected store transition makes the attempt's row ambiguous |
| `GatewayServices.GatewayService.Call` | src/local_inference_gateway/app.py:200-201 | The call of the service's worker is a return step with the outcome that the call's trace decides, and the trace is kept for the attempt |
| `GatewayServices.GatewayService.Restarted` | src/local_inference_gateway/store.py:178-213 | A crash loses the threads and the lane; the next process initializes the same table, and the whole is a step of a run |
| `GatewayServices.ServiceRepeatsOnlyRefused` | src/local_inference_gateway/app.py:200-226 | Of the service with its worker, whatever it and other threads did: before a row is worked on again, every completion request of the earlier call got no connection or a status of 404, 429 or 500 to 599 |
| `GatewayServices.ServiceRepeatsOnlyRefusedEver` | src/local_inference_gateway/app.py:200-226 | With retention at least the lifetime, the same of all calls that the service ever makes for a request |
| `Routing.Worker.Infer` | src/local_inference_gateway/worker.py:199-247 | The exact trace of one call: with a deadline the clock is read and nothing more happens once it has passed; then a capacity of what the task demands (32768 tokens for passages) is established or the call ends with nothing sent; then exactly one completion request by the deadline. It reports unavailable after a post exactly for no connection or a status of 404, 429 or 500 to 599, any other status from 400 and any bad document is invalid, and a document under 400 that validates is the result |
| `Routing.Worker.Received` | src/local_inference_gateway/worker.py:228-246 | The exception handlers after submission decide by the status itself: 404, 429 and 500 to 599 unavailable, any other from 400 invalid, below that the validated document or invalid, and a lost reply unknown |
| `Routing.FallbackWorker.Infer` | src/local_inference_gateway/worker.py:341-366 | The exact trace of a routed call: the primary is asked before the deadline and called if available; the fallback is called exactly after the primary is proven unavailable and the fallback proven ready; every other answer, a passed deadline or an outside exception ends the call with nothing sent |
| `Routing.FallbackWorker.FallbackReady` | src/local_inference_gateway/worker.py:368-373 | True exactly when the task is eligible, the primary machine was seen empty and then the fallback available, each asked before the deadline |
| `Routing.FallbackWorker.Remaining` | src/local_inference_gateway/worker.py:376-380 | The time left, or a refusal once the deadline has passed |
| `Routing.FallbackWorker.Call` | src/local_inference_gateway/worker.py:353-366 | A worker is called only after a clock reading before the deadline |
| `Submissions.RoutedCallsPostOnce` | src/local_inference_gateway/worker.py:341-380 | A routed call posts at most once, on one worker, the fallback only after primary unavailable, residency empty and fallback healthy in that order, by the deadline; if it reports unavailable, its request got no connection or a status of 404, 429 or 500 to 599 |
| `Submissions.BareCallsPostOnce` | src/local_inference_gateway/worker.py:199-247 | A call of the primary alone, without a deadline, posts at most once, after the worker's answer that it has the capacity, and the reply's status and document decide the outcome |
| `Deployments.Infer` | src/local_inference_gateway/app.py:420-434 | Under either deployment, the primary alone or the choice between two workers, the gateway's call leaves a trace of that worker with the outcome it returns, which is unavailable after a post exactly for the refusing statuses |
| `Submissions.NoRequestAfterAnAcceptedOne` | src/local_inference_gateway/app.py:200-226 | In every run under either deployment, before a row is worked on again every completion request for it got no connection or a status of 404, 429 or 500 to 599 |
| `Submissions.NoRequestAfterAnAcceptedOneEver` | src/local_inference_gateway/app.py:200-226 | With retention at least the lifetime, the same across all rows a request ever had |
| `Submissions.TakenRequestIsTheLast` | src/local_inference_gateway/worker.py:228-246 | In every run: a call whose completion request may have been taken, a reply below 400 among them, is the last call for its row |
| `Decimals.CanonDecides` | src/local_inference_gateway/contracts.py:540-550 | Stripping trailing zeros yields one representative per number: two decimals denote the same number exactly when their canonical forms are equal |
| `NumberTexts.EncodeJsonNumber` | src/local_inference_gateway/contracts.py:536-558 | The printer with its popping loop returns the canonical text, or raises outside the binary64 range |
| `NumberTexts.NumbersPrintExactly` | src/local_inference_gateway/contracts.py:536-558 | The text is a number of RFC 8259, section 6, that an independent reader reads back as the same number |
| `NumberTexts.TextIsTheNumber` | src/local_inference_gateway/contracts.py:536-558 | Equal numbers print identically (1, 1.0, 10e-1; 0 and -0), or are refused together; unequal ones print differently |
| `NumberTexts.FormOfNumber` | src/local_inference_gateway/contracts.py:550-558 | Integers are written as digits alone, numbers below one in magnitude with an exponent, the others with a point, and a sign exactly for negative numbers other than zero |
| `NumberTexts.PaddingIsBounded` | src/local_inference_gateway/contracts.py:550-551 | The branch that pads with zeros writes at most 309 digits and a sign |
| `Decimals.RangeIsOfTheNumber` | src/local_inference_gateway/contracts.py:478-485 | The range test does not depend on how a number is spelled |
| `Decimals.RangeIsExact` | src/local_inference_gateway/contracts.py:478-485 | The range ends exactly at 17976931348623157e292, at whatever scale the two are compared |
| `StringTexts.StringReads` | src/local_inference_gateway/contracts.py:517-518 | A string literal with its escapes (RFC 8259, section 7) reads back as the string |
| `StringTexts.EscapesOnlyWhatMust` | src/local_inference_gateway/contracts.py:517-518 | Only quotes, backslashes and control characters are escaped, the common ones with a letter, so that equal strings have one spelling |
| `Encoding.TextReads` | src/local_inference_gateway/contracts.py:509-533 | The text of every value, sorted or not, reads back as that value in the written order, whatever follows it |
| `Canonical.EncodingReadsBack` | src/local_inference_gateway/contracts.py:457-492 | Encoding succeeds exactly when every number is in range; then a reader that rejects duplicate keys gives the value back up to object order and number spelling |
| `Canonical.SameEncodingIsEquality` | src/local_inference_gateway/contracts.py:505-533 | Two values have the same sorted encoding if and only if they are equal up to object order and number spelling |
| `Canonical.SameTextKeepsOrder` | src/local_inference_gateway/contracts.py:509-533 | Without sorting, two values have the same text if and only if they differ in the spelling of numbers alone |
| `Canonical.TextIsCompact` | src/local_inference_gateway/contracts.py:509-533 | The encoder writes no white space outside strings |
| `Canonical.ParseObjectPairs` | src/local_inference_gateway/contracts.py:561-567 | Filling the dictionary gives the object with the fields in order, and raises exactly on a repeated key |
| `Json.NormalDecides` | src/local_inference_gateway/contracts.py:509-533 | Sorting objects and canonical numbers decide equality up to order and spelling, both ways |
| `JsonShapes.ValidateJsonShape` | src/local_inference_gateway/contracts.py:215-228 | The worklist accepts exactly values of at most 20000 nodes and depth at most 32 |
| `JsonShapes.NodesArePlaces` | src/local_inference_gateway/contracts.py:215-228 | The nodes that are counted are as many as the places in the value, the paths of indices through lists and object values |
| `JsonShapes.DepthIsOfPlaces` | src/local_inference_gateway/contracts.py:215-228 | The depth is within a limit exactly when every place is reached in fewer steps |
| `Admissions.ValidateSupportedSchema` | src/local_inference_gateway/contracts.py:321-439 | The validator succeeds exactly on supported schemas with at most 16 references in all; then the counter has grown by the number of reference nodes and the result is the multiplicity times the cost |
| `Admissions.ValidateAll` | src/local_inference_gateway/contracts.py:347-359 | Subschemas in turn: the counter grows by the sum of their references, the results are their costs times the multiplicity, and one failure fails all |
| `Admissions.ValidateGenerationShape` | src/local_inference_gateway/contracts.py:128-158 | All checks of a response schema in order accept exactly the admitted schemas |
| `SupportedSchemas.AdmissionDecides` | src/local_inference_gateway/contracts.py:128-158 | A response schema is admitted exactly when it has at most 250000 bytes and 20000 values nested at most 32 deep, a closed root or a bounded choice of closed roots, bounded passage definitions, only supported nodes, at most 16 references and at most 32 passage values in one output, each given by an independent definition on the keywords |
| `SupportedSchemas.FindingsDecide` | src/local_inference_gateway/contracts.py:321-455 | The validator's findings call exactly those schemas supported that an independent definition on the keywords does: closed objects, arrays with items and maxItems, scalar keywords, enumerations, nullable unions and the choice at the root |
| `SupportedSchemas.CostsAgree` | src/local_inference_gateway/contracts.py:347-439 | The validator's cost is the output cost on the keywords: references count one, properties add up, items count maxItems times, the costliest alternative counts |
| `Budgets.AdmittedSchemasStayWithinBudget` | src/local_inference_gateway/contracts.py:137-147 | Whatever an admitted schema accepts, and whichever satisfied alternative is followed at each anyOf, at most 32 pairs of a position and a reference match, from at most 16 reference nodes at the schema positions |
| `Budgets.MatchesWithinCost` | src/local_inference_gateway/contracts.py:347-439 | For every supported schema the matches of an accepted value stay within the computed cost, through properties, items with maxItems, unions and root choices |
| `Budgets.ReferencesAreCounted` | src/local_inference_gateway/contracts.py:321-439 | For every supported schema the validator's count of references is the number of reference nodes over all schema positions |
| `WorkBounds.WorkIsBounded` | src/local_inference_gateway/contracts.py:379-439 | Checking a value against a supported schema with k root choices (at most 64) takes at most 1 + k * size * (depth + 2) schema-node visits, all branches tried |
| `WorkBounds.VisitsWithoutUnions` | src/local_inference_gateway/contracts.py:399-425 | Below a nullable union no further union is admitted, so each position is visited once |
| `SchemaPositions.UsesDecoderFieldOrder` | src/local_inference_gateway/contracts.py:268-286 | The worklist answers true exactly with passage definitions, or for email.analyze version 1 when every node reachable through properties, items and anyOf requires all its properties |
| `DecoderOrders.DecoderOrderIsChosen` | src/local_inference_gateway/contracts.py:268-286 | Decoder order is chosen exactly for schemas with a "$defs" keyword, or for version 1 of "email.analyze" when every node lists all its properties in its own raw "required"; otherwise the schema is sent as it is |
| `AdmittedSchemas.AdmittedIsSchematic` | src/local_inference_gateway/contracts.py:289-318 | An admitted schema that passes the meta-schema has objects at all schema positions, which is what the two order functions need |
| `KeyOrders.KeyOrderInOrder` | src/local_inference_gateway/contracts.py:301-306 | The property order puts required names first, in their own order, and sorts the rest |
| `DecoderLaws.NodePermuted` | src/local_inference_gateway/contracts.py:289-318 | The projection equals the schema up to the order of object fields |
| `DecoderLaws.NodeOrdered` | src/local_inference_gateway/contracts.py:294-315 | The projection is in decoder order at every schema position, and annotation and default data is sorted as data, whatever its keys are called; DecoderOrders restates the order on the raw keywords |
| `DecoderOrders.ProjectionIsArranged` | src/local_inference_gateway/contracts.py:289-318 | Read off the raw keywords at every schema position: of two properties the one listed first in "required" comes first, listed ones before all others, and the others, the definitions and the keywords ascend; the required lists stay as they were |
| `DecoderLaws.NodeIsFixed` | src/local_inference_gateway/contracts.py:289-318 | A schema that is already in decoder order is left alone |
| `DecoderLaws.ProjectionIsIdempotent` | src/local_inference_gateway/contracts.py:289-318 | Projecting twice is projecting once |
| `DecoderMeaning.ProjectionKeepsMeaning` | src/local_inference_gateway/contracts.py:289-318 | A schema and its projection accept the same values, each with its own definitions, for every evaluator that does not look at field order |
| `DecoderIdentity.DecoderOrderIsUnique` | src/local_inference_gateway/contracts.py:289-318 | Whatever equals the schema and is in decoder order is its projection, up to number spelling |
| `DecoderIdentity.SchemaIdentityDeterminesText` | src/local_inference_gateway/contracts.py:268-318 | Schemas with equal canonical bytes choose the same order and yield the same text for the worker, projected or sorted |
| `EquivSchemas.UsesOrderKept` | src/local_inference_gateway/contracts.py:268-286 | The choice of decoder order does not depend on the order in which the schema was written |
| `WireIdentity.DigestDeterminesWire` | src/local_inference_gateway/worker.py:218-270 | Two requests with the same canonical document are sent to a worker as the same bytes |
| `WireDocuments.WorkerReadsTheRequest` | src/local_inference_gateway/worker.py:249-270 | Read back from the bytes: the worker is asked for the model, the messages with role and content in order, the temperature, the token limit, no streaming, and a strict named format with the schema of the request, seed and ttl exactly when given, each under its own name and nothing else; in decoder order exactly when that applies, all sorted otherwise |
| `WireDocuments.DigestCoversTheRequest` | src/local_inference_gateway/contracts.py:194-196 | Read back from the digested bytes: protocol version, id, expiry, task, requirements and the whole generation, each under its own name and nothing else |

## Left out

- SQLite: schema creation, column checks, WAL mode and driver errors; a transaction is one atomic step that restores the
  old table when it raises. Exceptions outside `Exception` are not modelled.
- The columns for task id and version, creation time and acknowledgement time, which no modelled decision reads.
- HTTP routing, authentication, request streaming, rate and size limits of bodies, the health and task-profile endpoints.
- The task policy part of request validation (allowed tasks, output limits): each such check only turns a request away
  before it reaches the store; the expiry window is modelled.
- The field patterns of requests (UUID text, timestamps, lengths of messages), and the documents and status codes that
  answer an acknowledgement; its errors are those of the store.
- The JSON Schema meta-schema as a whole: `AdmittedSchemas.MetaValid` states the typing it gives to the keywords that hold
  subschemas and names, and nothing else of it is used.
- Budgets.Accepts: keywords other than type, properties, items, maxItems, anyOf and $ref are a parameter that may refuse
  anything, so the bounds hold for every evaluator that is at least as strict.
- The parsing of Ollama's capacity metadata and the validation of a worker's document: each is an answer that the world
  gives. The growing buffer of a bounded reply and `FallbackWorker.health` are not modelled.
- UTF-8 and lone surrogates: encodings are sequences of Unicode scalar values, and bytes are counted only for the limit on
  schemas. The range guard on numbers is an exact comparison, without the rounding of the decimal context.
- Canonical.EncodingReadsBack: the reader keeps every number as an exact decimal and does not tell integer literals from
  other spellings of the same number.
- SchemaPositions.UsesDecoderFieldOrder: asks for schema objects at all schema positions, as admission and the
  meta-schema guarantee (AdmittedSchemas.AdmittedIsSchematic).
- The text of error messages: the schema checks answer yes or no, and the counters after a refusal are not described.
