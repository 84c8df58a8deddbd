# sigil-pi: verified model

sigil-pi is a host that runs tenants' agent turns through disposable sandboxed
compilers. This project models the parts of it whose correctness is a matter of
state, order and arithmetic, and proves what they promise:

| module | what it models |
|---|---|
| `Utf8`, `Utf8Exact`, `Decimal`, `ParsedInts` | text encoding and decimal numerals, as the byte-level code relies on them |
| `Clip` | bounding one tool result |
| `Framing`, `TornFrames` | the bridge's frame stream, whole and torn, and the argument framing towards tools |
| `Transcript`, `TurnLoop`, `TurnAnswers` | transcript compaction, one agent turn on every exit path, and what its messages hold |
| `AuditChain`, `AuditLog` | the hash-linked, optionally signed chain, and its constant-time append |
| `RateLimit` | the sliding and the aligned request limiter |
| `Quota`, `QuotaDecisions`, `QuotaSafety` | durable quotas: reservation, settlement, what each decides, and runs of many workers |
| `SessionLocks` | the reference-counted per-session locks |
| `Schedules`, `ScheduleRules` | the schedule store and its multi-worker claim protocol, when schedules fire and what keeps them |
| `Retention` | one undisturbed retention sweep, explicit deletion, and the restart check |
| `Sessions`, `Attribution`, `AttributionCalls`, `SweepSteps` | files and registry rows while turns, sweeps and deletions interleave and crash, and how their steps make up whole sweeps |
| `Runtime` | one forging endpoint over a succession of killable compilers |
| `BackupPaths`, `Backup`, `BackupScope`, `BackupRoundTrip`, `BackupCycle` | backup, fail-closed restore, managed pruning |
| `Histogram` | bucketed latency percentiles |
| `Remains`, `Wrappers` | what is left of a sequence; optional values and results |

Objects whose methods update fields are classes whose methods are proved against
specification functions; protocols between threads or worker processes are state
machines whose steps are single transactions, lock operations or file operations,
and their theorems range over every run.

Conventions. Clocks are real numbers. SHA-256 and HMAC are function parameters:
nothing is asked of the digest except that the records or files at hand do not
collide, and of HMAC (RFC 2104, section 2) that a signature which checks was made
by the key's holder. JSON text is a pair of render and parse functions, asked only
to round-trip the values at hand and, for the audit log, that no cut of a rendered
object parses. Serialized sizes of transcripts are additive: two brackets, the
items, and two characters between neighbours. Text is a sequence of Unicode scalar
values, so text that has no UTF-8 encoding does not occur.

Results that qualify what the code or its comments suggest:

* `admit`, `admit_request` and `acquire_turn` read their clock before they hold the lock
  or the write transaction. The sliding limiter's bound holds whatever the readings
  exactly at a limit of one; above that every inversion exceeds it
  (`RateLimit.BoundWhateverClocksIff`). The aligned limiter's bound holds for calls in
  window order; readings that alternate between two windows are admitted without limit
  (`RateLimit.AlternatingWindowsAllAdmitted`). The quota's bound holds for transactions
  in day order; an acquire breaks it exactly when its reading is from an earlier day and
  the latest day has no room left (`QuotaSafety.AcquireBreaksBoundIff`), and a run that
  does so exists under every configuration (`QuotaSafety.StaleDayExceedsQuota`).
* The durable limiter's Retry-After can be short by less than a second, exactly when
  the time left is neither whole nor at most one second
  (`RateLimit.AlignedRetryAfterSufficesIff`).
* A product that is killed anywhere starts again exactly when the turn deadline does
  not exceed the retention period (`Attribution.RestartsAlwaysIff`), although a turn
  writes its last audit record and its transcript after its deadline; the startup code
  does not compare the two periods. An explicit deletion that finishes while a chat turn is
  admitted and waiting breaks it too (`Attribution.DeletionUnderTurnBreaksRestart`).
* `put` during a scheduled turn erases the turn's lease, so a second turn of the same
  schedule can start beside it (`Schedules.PutDuringTurnAllowsOverlap`).
* A schedule that is removed and put again fires at once. One whose turn was killed keeps
  the dead turn's lease, and fires again exactly when it is due and that lease has run out
  (`Schedules.KilledTurnFiresAgainIff`). Each removal, each kill and each firing under a
  shorter period adds one to the bound on its firings (`Schedules.FiringsAreBounded`), and
  for every n some run with n removals, or with n kills, fires n + 1 times where the bare
  bound allows one (`Schedules.RemovalsReachBound`, `Schedules.KillsReachBound`).
* Entering the endpoint's context while a compiler is installed is not guarded and
  orphans that compiler (`Runtime.EagerStartOrphansIff`); entering twice does
  (`Runtime.SecondEagerStartOrphans`).
* A frame stream that ends inside a frame's length is not always refused: when only zeros of
  the length arrived it is read as an empty frame (`TornFrames.TornLengthIff`).
* The len8 framing is read back exactly for arguments under 10^8 bytes
  (`Framing.Len8RoundTripIff`), and collides beyond (`Framing.Len8Collides`).
* A backup may be created that cannot be restored: restore counts the manifest and
  limits its size and the number of members, create does not
  (`BackupRoundTrip.RoundTripIff`). In a managed directory such a backup makes that
  cycle and every later one fail without deleting anything
  (`BackupCycle.OversizedBackupStopsPruning`). Growing one sandbox file of any valid state
  up to the size limit is enough (`BackupCycle.OversizedBackupExists`).
* A record holding U+0085, U+2028 or U+2029 is appended but not read back
  (`AuditLog.ReadsBackIffClean`), and a whole last line that lost only its newline is
  appended onto (`AuditLog.AppendNeedsTheNewline`). A line torn beyond the tail window is
  appended onto when the window shows only blanks, which starts a new chain in the middle
  of the file, or something that parses (`AuditLog.TornLineIsRefused`); the full read
  reports it all the same.

## Model

| member | source | states |
|---|---|---|
| `Utf8.StrictRoundTrip` | agent.py:397 | strict decoding gives every encoded string back |
| `Utf8Exact.StrictDecodesIff` | agent.py:397 | bytes decode to a text exactly when they are its encoding: overlong forms, surrogates and stray bytes are refused |
| `Utf8.DecodePrefix` | agent.py:154-155 | decoding the first k bytes of an encoding, dropping what is cut, yields the longest run of whole characters within k bytes |
| `Decimal.ParseDigits` | agent.py:392 | int() reads any run of up to 4300 digits as the number it denotes |
| `ParsedInts.ParseIntMeans` | agent.py:392 | int() reads, between white space, an optional sign and up to 4300 digits grouped by single underscores, as the number they denote, and refuses anything else |
| `ParsedInts.StripsWhite` | agent.py:392 | white space around a numeral makes no difference, and nothing else is taken off |
| `Decimal.Pad8Reads` | agent.py:1577-1579 | an eight-digit padded length below 10^8 has eight digits and reads back |
| `Decimal.LongerIfLarger` | agent.py:147-152 | no smaller figure needs more digits than the one the notice was sized for |
| `Clip.ClipIsExact` | agent.py:126-156 | at every limit: the byte budget holds, a text within it is untouched, a clipped text is the longest whole-character head that fits, within 3 bytes of the room, and the notice states exactly the head's bytes |
| `Clip.ClipIsIdempotent` | agent.py:126-156 | clipping a clipped result changes nothing |
| `Clip.DecodedHeadIsLongest` | agent.py:153-156 | the head is the longest whole-character prefix within its room and at most 3 bytes short of it |
| `Clip.NoticeLength` | agent.py:144-152 | the notice's exact byte length, whatever the figures |
| `Framing.DecodeWith` | agent.py:386-419 | the decode loop ends on every input and computes the frame-by-frame reading |
| `Framing.DecodeFrames` | agent.py:386-419 | decode_frames is that loop with the bridge's tags |
| `Framing.HostReadsFrames` | agent.py:390-395 | a frame is read back wherever it stands and whatever follows it |
| `Framing.FramesRoundTrip` | agent.py:386-419 | decoding a concatenation of frames under 10^8 bytes reads exactly those frames, in order |
| `Framing.InterpretFrameOf` | agent.py:396-418 | a framed text, usage, tool-use or other block is interpreted as itself |
| `Framing.UsageCountsIff` | agent.py:401-412 | a usage frame counts exactly when both numbers are there and neither is negative; any other is kept as text |
| `TornFrames.TornPayloadIsRefused` | agent.py:391-394 | a frame whose payload did not arrive whole is refused |
| `TornFrames.TornLengthIff` | agent.py:391-394 | a stream that ends inside a frame's length is read as an empty frame exactly when some of the length arrived and all of it is zeros, and refused otherwise |
| `TornFrames.ToolUseLoads` | agent.py:413-419 | a tool use whose input is not JSON is handed on without one; one that is not text fails the stream |
| `Framing.BlocksRoundTrip` | agent.py:386-419 | the host reads back exactly the blocks that were framed |
| `Framing.Len8RoundTripIff` | agent.py:1576-1579 | len8 argument text is split back exactly when every argument is under 10^8 bytes, whatever the arguments hold |
| `Framing.Len8Collides` | agent.py:1576-1579 | beyond that size two different argument pairs share one wire form |
| `Framing.PipesRoundTripIff` | agent.py:1580-1584 | pipe-joined arguments split back correctly exactly when the dispatch does not refuse them |
| `Framing.WireInputIsInjective` | agent.py:1575-1584 | two accepted argument lists of one arity never share a wire form |
| `Transcript.StartsAreTheTurns` | agent.py:98-103 | the cuts are all the real user turns, in ascending order |
| `Transcript.HistoryBytesIsJson` | agent.py:92-95 | history_bytes is the length of the transcript written out as a JSON list |
| `Transcript.CompactIsLongestFit` | agent.py:106-123 | compact returns the longest suffix opening on a user turn that fits, or the newest turn when none does |
| `Transcript.SuffixWellFormed` | agent.py:98-103 | cutting at a real user turn never separates a tool use from its result |
| `Transcript.CompactPreserves` | agent.py:106-123 | compact keeps a transcript well formed, non-empty and on the same newest question |
| `Transcript.CompactIsBoundedAndIdempotent` | agent.py:106-123 | what compact returns fits or is one turn, and compacting again changes nothing |
| `TurnLoop.PiAgent.GatherBlocks` | agent.py:1765-1792 | the block loop computes the step's content, results, texts and token counts, stopping where a dispatch raises |
| `TurnLoop.PiAgent.RunStep` | agent.py:1737-1829 | one step: abort, deadline, compaction, payload, model answer, tool results, progress event |
| `TurnLoop.PiAgent.TurnLocked` | agent.py:1714-1840 | an unknown allowed tool changes nothing; on every other exit exactly this session's transcript is saved, compacted, and the turn's tokens join the totals |
| `TurnLoop.GatherPairs` | agent.py:1765-1791 | until a dispatch raises, every tool use gathered has its result, in order |
| `TurnLoop.TurnIsSound` | agent.py:1725-1834 | whatever model, tools, caller and clock do, every payload sent and the transcript saved are well formed and answer this turn's question |
| `TurnLoop.SavedIsBounded` | agent.py:1831-1834 | what is saved fits the limit or is this one turn |
| `TurnLoop.EveryStoredTranscriptIsSound` | agent.py:1831-1834 | after any sequence of turns of any sessions, each with its own allowed tools, ending in any way, every stored transcript is well formed and bounded |
| `TurnLoop.EveryPayloadIsSound` | agent.py:1751-1763 | every payload of every turn of such a run is well formed and holds its own question |
| `TurnAnswers.EveryToolUseIsAnswered` | agent.py:1765-1817 | in every payload and in the saved transcript, what the model said in this turn stands as it said it; each use of a tool the caller may not use is answered by the refusal, as an error, and each other by exactly what its dispatch returned |
| `TurnAnswers.ForbiddenToolsChangeNothing` | agent.py:1782-1788 | whatever tools outside the caller's set would have come to, the turn is the same: they are never dispatched |
| `TurnAnswers.RepliedIsSaid` | agent.py:1801-1812 | a turn that replies says the texts of its last answer, one to a line, in which no tool was asked for |
| `TurnAnswers.TurnMeters` | agent.py:1765-1792 | a turn is charged exactly what the replies of the steps it took reported, up to a dispatch that raises |
| `AuditChain.VerifyChain` | agent.py:509-544 | accepts exactly the chains every record of which fits its position, and otherwise reports the first break |
| `AuditChain.PrefixVerifies` | agent.py:524-544 | a chain that lost its tail still verifies |
| `AuditChain.SharedRecordSharesPast` | agent.py:499-506 | two verifying chains with the same record at one position agree on everything before it |
| `AuditChain.HeadHashPinsChain` | agent.py:490-530 | two verifying chains of equal length and head hash are identical |
| `AuditChain.UnkeyedEditUnnoticedIff` | agent.py:513-530 | without a key an edit goes unnoticed exactly when it keeps the position fields and is of the last record, or is none |
| `AuditChain.RearrangedVerifiesIffPrefix` | agent.py:524-530 | a list of one chain's records verifies exactly when it is a prefix of that chain |
| `AuditChain.AppendVerifies` | agent.py:648-665 | appending keeps a chain verifying, with and without a key |
| `AuditChain.AppendedVerifies` | agent.py:641-669 | every chain built by appends verifies |
| `AuditChain.AppendedStates` | agent.py:648-665 | the i-th record of a chain carries the i-th appended session and content |
| `AuditChain.NewEntryStates` | agent.py:648-665 | a new record states what is logged, follows its predecessor and is signed exactly under a key |
| `AuditChain.SignatureCoversAll` | agent.py:499-506 | a signature covers all a record states |
| `AuditChain.AcceptedIffGenuinePrefix` | agent.py:499-544 | with the key, however many sessions share it, a list is accepted exactly when it is a prefix of one genuinely appended chain |
| `AuditChain.DropKey` | agent.py:524-543 | what verifies under a key verifies without it |
| `AuditLog.Log.Read` | agent.py:592-606 | reads line by line, refusing at the first unreadable one |
| `AuditLog.Log.AppendOrRaise` | agent.py:641-669 | appends one linked record that states what is logged, or leaves the file as it was |
| `AuditLog.ReadsBackIffClean` | agent.py:592-606 | the full read gives the records back exactly when none holds U+0085, U+2028 or U+2029, the separators only splitlines honours |
| `AuditLog.TailReadIsLastRecord` | agent.py:608-639 | the bounded tail read finds exactly the last record when its line fits the window, and refuses otherwise |
| `AuditLog.AppendRefinesFullRead` | agent.py:612-669 | the constant-time append does what reading the whole log first would do |
| `AuditLog.LifeReadsBackAndVerifies` | agent.py:592-669 | after any number of appends the file reads back as one record for each, in order, stating what was logged, and that chain verifies |
| `AuditLog.AppendStatesBody` | agent.py:641-669 | one append to a log of clean records adds one record, which states what is logged |
| `AuditLog.TornLineIsRefused` | agent.py:592-639 | a line torn anywhere, even inside a character, is reported by the full read; the next append refuses it exactly when it does not overfill the tail window with blanks or with something that parses as a record |
| `AuditLog.AppendNeedsTheNewline` | agent.py:628-669 | behind a terminated line the append is sound; behind a line that lost only its newline it succeeds and the log is then unreadable |
| `RateLimit.FixedWindowRateLimiter.Admit` | product_service.py:251-262 | one call prunes, decides and records, and touches only its tenant |
| `RateLimit.SlidingWindowBound` | product_service.py:251-262 | no minute (t-60, t] sees more than `limit` admissions of a tenant, for every t and every sequence of calls in clock order, and at a limit of one for calls in any order |
| `RateLimit.StaleClockExceedsBound` | product_service.py:252-254 | at every limit above one, every clock inversion ends some run of calls with limit + 1 admissions in one minute |
| `RateLimit.BoundWhateverClocksIff` | product_service.py:251-262 | the bound holds for all calls whatever their clock readings if and only if the limit is one |
| `RateLimit.RetryAfterIsExact` | product_service.py:258-260 | whatever readings the queue holds, a refused caller stays refused until the oldest event leaves; Retry-After overshoots that by less than a second, and waiting it suffices |
| `RateLimit.AlignedWindowBound` | product_service.py:408-427 | for calls in window order, aligned windows admit at most the limit each and at most twice the limit in any minute |
| `RateLimit.AlternatingWindowsAllAdmitted` | product_service.py:409-425 | calls that alternate between two windows are all admitted, at every limit, however many |
| `RateLimit.StaleReadingReopensWindow` | product_service.py:409-425 | a window that is full and refuses admits again after one call that carries a reading from another window |
| `RateLimit.AlignedRetryAfterSufficesIff` | product_service.py:418-420 | waiting the durable Retry-After suffices exactly when the time left is whole or at most a second; it is never short by a second |
| `Quota.DurableQuotaStore.constructor` | product_service.py:312-385 | opening the store leaves exactly the leases still in force, in order, and the other tables as they were |
| `Quota.DurableQuotaStore.AdmitRequest` | product_service.py:408-427 | the aligned-window decision, stored only when admitted |
| `Quota.DurableQuotaStore.AcquireTurn` | product_service.py:429-497 | concurrency, token, storage and audit checks in order; a refusal leaves all tables as they were, a grant leaves exactly the leases still in force, in order, and its own behind them |
| `Quota.DurableQuotaStore.SettleTurn` | product_service.py:499-549 | closes the lease, charges the day, replaces the measured sizes; an unknown lease changes nothing |
| `QuotaDecisions.AcquireDecides` | product_service.py:435-476 | from the rows alone: TenantBusy exactly when the tenant holds the maximum of leases in force; then each quota refuses exactly when what is spent or measured, what leases in force reserve and the new reservation exceed it; else the turn is granted |
| `QuotaDecisions.AcquireLeaves` | product_service.py:477-497 | a refusal changes nothing; a grant takes exactly the expired leases of every tenant, adds one with the full reservation and the full term, and registers the session or moves its activity on |
| `QuotaDecisions.TokenRetryAfterSufficesIff` | product_service.py:450-456 | waiting the Retry-After of a spent day reaches the next day exactly when the time left is whole or at most a second |
| `QuotaDecisions.SettleTakes` | product_service.py:502-510 | an unknown lease changes nothing; a known one goes alone |
| `QuotaDecisions.SettleCharges` | product_service.py:511-547 | the lease's tenant is charged the tokens in plus out, negative figures as none, on the day of the clock; the session's measured sizes are replaced, and no other tenant or row changes |
| `QuotaDecisions.SettlementRecords` | product_service.py:499-549 | a settlement's recorded charge and growth are the tokens used and the change in the tenant's measured bytes |
| `Quota.DurableQuotaStore.RemoveSession` | product_service.py:662-676 | exactly the rows of that tenant and session at or before the cutoff are gone, every other row stays in order, and the answer is whether one row went |
| `QuotaSafety.DropTakesOne` | product_service.py:662-676 | where tenant and session name one row, a removal takes that row or none |
| `QuotaSafety.RowKeysStayDistinct` | product_service.py:370-376 | tenant and session name one row throughout every run |
| `Quota.DurableTurnLease.Release` | product_service.py:286-299 | however often it is released, the store settles it at most once |
| `QuotaSafety.QuotasHoldOverRuns` | product_service.py:429-549 | over every run in day order: tokens charged plus reserved within the daily quota plus that day's overruns, the day's row exactly what was charged, storage and audit likewise |
| `QuotaSafety.QuotasHoldWithinReservations` | product_service.py:429-549 | over every run in day order in which no turn takes more than it reserved, charged plus reserved tokens and measured plus reserved bytes stay within the quotas themselves |
| `QuotaSafety.LeasesNeverExceedLimit` | product_service.py:433-441 | whatever clocks do, a tenant never holds more leases than its limit |
| `QuotaSafety.StaleDayExceedsQuota` | product_service.py:430-456 | under every configuration and for every two days: a run from the empty store in day order, without overruns, after which one acquire with a reading from the earlier day exceeds the bound for the later day |
| `QuotaSafety.AcquireBreaksBoundIff` | product_service.py:430-456 | in a state that kept the bound, a granted acquire breaks it exactly when its reading is from an earlier day and the latest day has no room for its reservation |
| `QuotaSafety.RollOver` | product_service.py:443-447 | day rollover starts with nothing charged and only the outstanding reservations |
| `QuotaSafety.GoneStaysGone` | product_service.py:499-509 | a lease that left the table never returns, and settling it again reports False and changes nothing |
| `QuotaSafety.SettledAtMostOnce` | product_service.py:502-512 | no lease is settled twice in any run, nor is a lease still in the table ever settled |
| `QuotaSafety.IdsStayDistinct` | product_service.py:353-354 | a lease id names one lease throughout every run |
| `QuotaSafety.OtherTenantsUntouched` | product_service.py:435-549 | one tenant's operation changes no other tenant's counters or rows; of its leases a granted acquire takes exactly the expired ones, and nothing else takes any |
| `SessionLocks.SessionOperationLocks.Register` | product_service.py:991-994 | counts a thread in on the session's one lock object |
| `SessionLocks.SessionOperationLocks.Unregister` | product_service.py:1033-1038 | counts it out, dropping the entry with the last user |
| `SessionLocks.SizeCountsBusyKeys` | product_service.py:1040-1042 | in every interleaving each worker's registry holds as many entries as it has sessions some thread is registered on |
| `SessionLocks.MutualExclusion` | product_service.py:989-1038 | in every interleaving at most one thread is in a session's body, across workers when they share lock files |
| `SessionLocks.ExactReclamation` | product_service.py:991-1038 | an entry exists just while threads are registered, counts exactly them, and they share its lock |
| `SessionLocks.CountOutNeverFails` | product_service.py:1000-1006 | a leaving or timed-out thread finds its entry with a positive count |
| `SessionLocks.FreeLockCanBeTaken` | product_service.py:995-999 | a lock none of its registered threads owns can be taken by one that waits |
| `Schedules.ProductScheduleStore.TenantCount` | product_service.py:1129-1130 | the number of the tenant's schedules |
| `Schedules.ProductScheduleStore.Put` | product_service.py:1109-1149 | refuses a bad name, session, message or interval, or a full tenant, in that order; otherwise rebuilds the entry: run history kept, lease dropped |
| `Schedules.ProductScheduleStore.ClaimDue` | product_service.py:1262-1274 | leases the entry exactly when it is due and not leased past `now` |
| `Schedules.ProductScheduleStore.CompleteClaim` | product_service.py:1276-1288 | records the run and drops the lease exactly for the owner |
| `Schedules.ProductScheduleStore.InternalActive` | product_service.py:1204-1225 | true exactly when some schedule of the session is recent or leased |
| `Schedules.ProductScheduleStore.RemoveInternal` | product_service.py:1192-1202 | removes exactly the session's schedules, and counts them |
| `Schedules.ProductScheduleStore.RemoveInactive` | product_service.py:1227-1251 | removes exactly the schedules neither recent nor leased, and counts them |
| `Schedules.SweepAgreesWithActivity` | product_service.py:1204-1251 | the sweep leaves a session a schedule exactly when internal_active keeps the session |
| `Schedules.TurnsNeverOverlap` | product_service.py:1262-1288 | no two turns of one schedule are ever under way together, however stale the workers' clocks, if turns end within their lease and are not re-put meanwhile |
| `Schedules.OverlapStartsIff` | product_service.py:1262-1274 | a claim beside a running turn starts a second one exactly when the schedule is due and the lease has run out at the claimant's clock |
| `Schedules.PutDuringTurnAllowsOverlap` | product_service.py:1134-1148 | after a put during a turn a claim overlaps it exactly when the new period makes it due |
| `Schedules.FiringsAreBounded` | product_service.py:1321-1330 | however long an outage lasted, firings in [a, b] number at most 1 + 1000 (b - a) / every_ms, plus one for each killed turn, each removal and each firing under a shorter period |
| `Schedules.KilledTurnFiresAgainIff` | product_service.py:1262-1274 | after a turn is killed, a claim starts the next exactly when the schedule is due and the killed turn's lease has run out |
| `Schedules.RemovalsReachBound` | product_service.py:1192-1288 | for every n an orderly run with n removals fires n + 1 times in one instant, as many as the bound allows |
| `Schedules.KillsReachBound` | product_service.py:1262-1288 | for every n an orderly run with n kills fires n + 1 times, a lease apart; under a longer period no bound with one excuse less holds |
| `ScheduleRules.CompletedFiresAgainIff` | product_service.py:1262-1274 | over runs: after a turn completed at `when`, with the entry left alone since, a claim at `now` starts the next if and only if a whole period has passed |
| `ScheduleRules.NeverRanFires` | product_service.py:1322-1324 | a schedule that never completed starts whenever no lease is in force |
| `ScheduleRules.LeasedDoesNotFire` | product_service.py:1269-1270 | while a lease is in force a claim changes nothing |
| `ScheduleRules.PunctualRunReachesBound` | product_service.py:1262-1288 | a schedule claimed and completed at each whole period fires at each, as often as the bare bound allows |
| `ScheduleRules.SweptKeeps` | product_service.py:1227-1251 | the sweep leaves exactly the schedules created, updated or run after the cutoff or leased past now |
| `ScheduleRules.SessionGoesAlone` | product_service.py:1192-1202 | a session's schedules go, and no other tenant's or session's |
| `ScheduleRules.PutDecides` | product_service.py:1109-1133 | which of name, session, message, size, interval and quota refuses a put, by the characters and numbers themselves |
| `ScheduleRules.PutWrites` | product_service.py:1134-1149 | a put writes its plan under its key and nothing else; run history and creation date survive, a lease does not |
| `Schedules.SteadyNeedsNoExcuse` | product_service.py:1321-1330 | without kills, removals and shorter periods nothing is added to that bound |
| `Schedules.ClaimPays` | product_service.py:1262-1274 | every claim is paid by a whole period since the last firing the table remembers, or uses up one excuse |
| `Schedules.QuotaHolds` | product_service.py:1129-1133 | no tenant ever holds more schedules than its quota |
| `Retention.ProductRetentionMonitor.VerifyQuotaRegistry` | product_service.py:1526-1543 | accepts exactly when every file's session has a row |
| `Retention.ProductRetentionMonitor.DeleteInternalFiles` | product_service.py:1510-1524 | removes the session's files under all three roots and reports whether there were any |
| `Retention.ProductRetentionMonitor.Delete` | product_service.py:1589-1610 | removes schedules, files and row of a session that has schedules or files, and changes nothing otherwise |
| `Retention.ProductRetentionMonitor.SweepOne` | product_service.py:1662-1678 | a candidate goes exactly when it is inactive and no schedule keeps it |
| `Retention.ProductRetentionMonitor.SweepSessions` | product_service.py:1662-1678 | the sweep loop deletes exactly the inactive sessions no schedule keeps, or some of them when an exception stops it, and counts them |
| `Retention.ProductRetentionMonitor.Tick` | product_service.py:1652-1713 | a tick deletes exactly those sessions and the inactive schedules; a failed precheck deletes nothing, an exception leaves what is not yet swept; what went is counted either way |
| `Retention.TrimmedThenSwept` | product_service.py:1675-1683 | the schedules a session's sweep removes are ones the schedule sweep would remove |
| `Retention.SweepIsComplete` | product_service.py:1652-1683 | what is left is recent or kept by a schedule left too, stays attributed, and a second sweep finds nothing |
| `Retention.PartialSweepIsSound` | product_service.py:1682-1699 | a sweep cut short keeps files attributed and deleted only sessions it was to delete |
| `Retention.DeletionIsComplete` | product_service.py:1589-1610 | a deletion leaves nothing of its session, everything of every other, and an acceptable registry |
| `Attribution.RestartAcceptsIffAttributed` | product_service.py:1526-1543 | the restart check accepts exactly when every file's session has a row |
| `Attribution.NextKeepsInv` | product_service.py:1652-1681 | every step of turns, sweeps, deletions and crashes keeps files attributed, live turns covered and erased files gone |
| `Attribution.RestartsAlwaysIff` | product_service.py:1652-1681 | a product killed after any step restarts, over every run without a deletion under a pending turn, if and only if the deadline for beginning a turn does not exceed the retention period; a turn under way may write at any time |
| `Attribution.DeletionUnderTurnBreaksRestart` | product_service.py:1589-1610 | whenever a deletion drops the row of a session with a pending turn, that turn can leave an unattributed file |
| `Attribution.KilledSweepIsRetried` | product_service.py:1613-1620 | a sweep killed at any step leaves its candidate's row and no lock |
| `AttributionCalls.WholeChat` | product_service.py:2053-2118 | a chat turn run to its end leaves its file and its row moved on to its registration and, where the session lives on, to its end, and nothing else |
| `AttributionCalls.WholeScheduled` | product_service.py:1338-1400 | a scheduled turn run to its end leaves the same |
| `AttributionCalls.WholeDeletion` | product_service.py:1589-1610 | a deletion takes every file of its session and no other's, and its row exactly when it found a file or a schedule |
| `AttributionCalls.WholeSweep` | product_service.py:1613-1681 | a sweep takes the files and the row of a session whose row is at least the retention period old and that no schedule keeps |
| `AttributionCalls.SweepSpares` | product_service.py:1613-1681 | any other candidate is left exactly as it is |
| `SweepSteps.ErasingIsWithoutOne` | product_service.py:1510-1524 | the separate erasing steps, run together, take out exactly one session, as the whole sweep and the deletion do |
| `SweepSteps.AttributedAgree` | product_service.py:1526-1543 | the step model and the sweep model mean the same by a registry that accounts for every file |
| `Runtime.KeptIffOwnFrameConsumed` | runtime_client.py:133-202 | a connection is kept exactly when the request's own frame was read in time |
| `Runtime.OutcomeMeans` | runtime_client.py:133-202 | answered exactly for its own frame with a usable result and no error, refused exactly for its own frame without; timed out exactly when a clock ran out, and excused exactly when the caller's budget was no larger than the watchdog |
| `Runtime.SupervisedRuntime.MarkUnhealthy` | runtime_client.py:400-409 | one mark: trims the window, counts the replacement, latches past the budget |
| `Runtime.SupervisedRuntime.Retire` | runtime_client.py:385-398 | gives the compiler up and marks unless the caller's own budget expired, as the retiring step of the protocol does |
| `Runtime.SupervisedRuntime.HandshakeFailed` | runtime_client.py:362-369 | a failed handshake always marks, as its step of the protocol does |
| `Runtime.SupervisedRuntime.Install` | runtime_client.py:370-374 | installs and counts the generation, as the handshake step of the protocol does |
| `Runtime.SupervisedRuntime.LookWhetherClosed` | runtime_client.py:375-379 | after installing, withdraws the compiler exactly when close came by |
| `Runtime.SupervisedRuntime.Decide` | runtime_client.py:326-333 | a thread under the lock starts, forges or leaves, as its step of the protocol says |
| `Runtime.SupervisedRuntime.BeginClose` | runtime_client.py:283 | the closed flag is set without the lock |
| `Runtime.SupervisedRuntime.FinishClose` | runtime_client.py:284-297 | close takes the compiler away exactly when it got the lock, and hands back the one to kill |
| `Runtime.NoOrphans` | runtime_client.py:274-297 | in every interleaving whose eager starts find no compiler yet, with the lock free at most the installed compiler is alive, and once a close has returned none is |
| `Runtime.EagerStartOrphansIff` | runtime_client.py:264-269 | an eager start on an idle endpoint leaves a compiler alive that is not installed exactly when one was installed and alive before |
| `Runtime.SecondEagerStartOrphans` | runtime_client.py:264-269 | two eager starts from a new endpoint leave the first compiler running behind the second |
| `Runtime.NextKeepsLive` | runtime_client.py:352-398 | every step keeps the live processes within the installed one and those in the lock holder's hand |
| `Runtime.NextKeepsThreads` | runtime_client.py:274-398 | every step keeps each thread's view of lock, client and closed flag true |
| `Runtime.LatchIsExact` | runtime_client.py:400-409 | unrecoverable exactly when some budget + 1 marks of the whole history lie within one window; then no client |
| `Runtime.LatchIsFinal` | runtime_client.py:352-409 | once latched, no later run spawns, installs or uses a compiler |
| `Runtime.ReplacementsCountFaults` | runtime_client.py:306-409 | the replacement count is the failed handshakes plus the forge failures not excused by the caller's budget |
| `Runtime.MarksOnlyFaults` | runtime_client.py:385-409 | a step marks exactly when it is a failed handshake, or a forge whose own frame did not come in time and whose caller's clock was not the one that ran out |
| `Runtime.HangMarksIff` | runtime_client.py:147-174 | a forge that waited in vain marks exactly when the caller gave no budget or one longer than the watchdog |
| `Runtime.HangsLatch` | runtime_client.py:400-409 | over runs: more such hangs within one window than the budget allows latch the endpoint |
| `Runtime.ForgeUsesInstalled` | runtime_client.py:326-350 | on an idle open endpoint with a compiler, a call that is answered or refused is served by that very compiler and changes nothing |
| `Runtime.ForgeStartsOne` | runtime_client.py:306-383 | on an idle open endpoint without a compiler, such a call starts one, is served by it and leaves it installed |
| `Runtime.ForgeFailureKills` | runtime_client.py:335-398 | a call whose answer does not come gives the compiler up, kills it and frees the lock |
| `Runtime.LookInMeans` | runtime_client.py:326-333 | under the lock a call leaves exactly when closed, forges exactly when open with a compiler, and starts one exactly when open without |
| `Runtime.CloseEmpties` | runtime_client.py:274-297 | a close that gets the lock takes the compiler away, kills it and leaves the endpoint closed and the lock free |
| `Runtime.CloseNeverWaits` | runtime_client.py:284-297 | a close that does not get the lock returns all the same and kills the compiler where it is |
| `Runtime.NobodyIsStuck` | runtime_client.py:264-398 | over runs: every thread under way can take a step, but for one that wants the lock while another holds it |
| `Runtime.RefusalKeepsCompiler` | runtime_client.py:335-346 | a forge keeps the client exactly when it was answered or refused |
| `BackupPaths.SafeRoundTrip` | state_tool.py:70-76 | a proper path written out is accepted and read back as itself |
| `BackupPaths.AcceptedIsProper` | state_tool.py:70-76 | no accepted path has an empty, dot, dot-dot or slashed part |
| `BackupPaths.NormalFormIsStable` | state_tool.py:492-493 | the normal form of an accepted path is accepted as itself |
| `BackupScope.SlackIsIgnored` | state_tool.py:70-76 | doubled slashes and single dots inside a name make no difference |
| `BackupScope.AbsoluteIsRefused` | state_tool.py:70-76 | a name that starts at the root is refused |
| `BackupPaths.MemberNameInjective` | state_tool.py:492-496 | different files get different member names |
| `Backup.Members` | state_tool.py:443-459 | accepts exactly the lists of regular, safely and distinctly named members within the count and size limits |
| `Backup.Unpack` | state_tool.py:488-508 | accepts exactly when each declared file is there with its size and digest, once, writable, and nothing else is |
| `Backup.RestoreTarget.RestoreBackup` | state_tool.py:462-526 | all or nothing: the target is created exactly for an acceptable archive and is otherwise unchanged |
| `Backup.CreateBackup` | state_tool.py:231-291 | succeeds exactly for a valid state within the size limit and a free output, and packs a manifest and every listed file |
| `BackupScope.SupportedIff` | state_tool.py:79-115 | by the text of their paths, a backup carries the .kv files of sessions, every sandbox file, the .jsonl files of audit, the schedules and the registry, and nothing else |
| `Backup.TwoFilesIff` | state_tool.py:488-508 | two files can stand in one tree unless one would have to be a directory on the other's way |
| `BackupRoundTrip.RoundTripIff` | state_tool.py:231-526 | a created archive restores, to exactly the supported files and a fresh marker, if and only if it is within restore's limits |
| `BackupRoundTrip.RestoredFromBackup` | state_tool.py:462-526 | what restoring a created archive comes to, whatever the validation of the restored state says |
| `BackupRoundTrip.TamperedIsRefused` | state_tool.py:488-508 | with a backup's manifest, only that backup's members restore: none missing, extra, duplicated or altered |
| `BackupRoundTrip.AcceptedIsDeclared` | state_tool.py:474-508 | whatever is accepted holds exactly the declared files with the declared digests |
| `BackupCycle.Metadata` | state_tool.py:325-373 | accepts exactly the private file whose digest and creation time match its name and whose manifest is complete |
| `BackupCycle.ManagedIffTenDigits` | state_tool.py:410-416 | a creation time makes a managed name exactly when it has at most ten digits |
| `BackupCycle.BackupDirectory.Prune` | state_tool.py:376-394 | deletes the managed files past retention if all managed files are valid, and nothing otherwise |
| `BackupCycle.BackupDirectory.Cycle` | state_tool.py:397-440 | links the new backup, then prunes; refuses a bad retention, time or name collision without a change |
| `BackupCycle.CycleDeletesExactlyExpired` | state_tool.py:376-431 | a cycle deletes exactly the validated backups aged at least the retention, never the one just made |
| `BackupCycle.InvalidNeighbourKeepsAll` | state_tool.py:384-387 | one invalid managed neighbour keeps every backup |
| `BackupCycle.CreatedIsValidIff` | state_tool.py:325-373 | a created backup passes as a managed one exactly within restore's limits |
| `BackupCycle.OversizedBackupStopsPruning` | state_tool.py:376-431 | a created backup beyond those limits stays and fails this cycle and every later one of any sequence, and none of them deletes anything |
| `BackupCycle.NoCycleDeletes` | state_tool.py:379-394 | while one managed backup is invalid, every cycle of any sequence fails and all files stay |
| `BackupCycle.OversizedBackupExists` | state_tool.py:231-263 | from every valid state with a sandbox file, under every limit it keeps: growing that file gives a valid state that create_backup accepts and whose archive restore refuses |
| `BackupCycle.RestorableIsValid` | state_tool.py:325-373 | whatever restores, under its own name, is a valid neighbour |
| `Histogram.RoundingIsFaithful` | scripts/load_test.py:46-49 | a recorded value is within half a millisecond, and rounding keeps order |
| `Histogram.TiesGoToEven` | scripts/load_test.py:46-49 | half a millisecond between two goes to the even one |
| `Histogram.MillisecondHistogram.Add` | scripts/load_test.py:46-49 | the buckets stay the tally of all samples |
| `Histogram.MillisecondHistogram.Walk` | scripts/load_test.py:55-60 | the walk over ascending buckets returns the element of the rank among the sorted samples |
| `Histogram.MillisecondHistogram.GetPercentile` | scripts/load_test.py:51-60 | the bucketed percentile equals the one taken from the sorted samples |
| `Histogram.AssertionReachedIff` | scripts/load_test.py:54-60 | the final assertion is reached exactly for a percentile above 100 |
| `Histogram.PercentileMonotone` | scripts/load_test.py:51-60 | percentiles never decrease in p |
| `Histogram.PercentileIsLeastCovering` | scripts/load_test.py:54-59 | the answer is the least value that p percent of the samples do not exceed |

## Left out

- HTTP, SSE, TLS, metrics, logging, resource probes, authentication and request validation: plumbing settled by reading one function.
- Export, the in-process concurrency semaphores, and the research host's own scheduler: simpler forms of what is modelled.
- SIGIL guests, the compiler, the memory sidecar, release scripts, configuration and startup: outside the modelled components.
- SHA-256, HMAC and JSON text: functions with the hypotheses named above; dynamically typed JSON (a manifest entry that is not an object, a sequence number that is a boolean or a float) is not modelled.
- SQLite, flock, subprocess and the file system: each transaction, lock operation, kill, replace and unlink is one step that succeeds; kills and disposals are taken to work.
- Clocks: real numbers, so float rounding is not modelled; thread scheduling fairness and liveness are not claimed.
- `TurnLoop.PiAgent.TurnLocked`: does not model memory recall, the system prompt or per-turn telemetry.
- `Framing.WireInputIsInjective`: for len8 arguments under 10^8 bytes, because longer ones collide; arguments are taken after path resolution, which is not part of this model.
- `AuditLog.TailReadIsLastRecord`: the files of audit chains hold only records this log writes; redact_grants is not part of this model.
- `RateLimit.SlidingWindowBound`: at a limit above one for calls in clock order, because every inversion can exceed the bound.
- `RateLimit.AlignedWindowBound`: for calls in window order, because readings from two windows in turn are admitted without limit.
- `QuotaSafety.QuotasHoldOverRuns`: for transactions in day order, because a reading from an earlier day can exceed the quota; reconcile_registered, which replaces measured sizes at startup, is not modelled.
- `QuotaSafety.GoneStaysGone`: for lease ids never issued twice, as random 128-bit ids are taken to be.
- `Schedules.TurnsNeverOverlap`: for turns that end within their lease and schedules not put during a turn, because the claim overlaps otherwise; mark_run and entries without timestamps are not modelled.
- `Schedules.ProductScheduleStore.Put`: the conversion of every_ms from text, a float or a boolean to an integer is not modelled.
- `Schedules.FiringsAreBounded`: under the conditions of TurnsNeverOverlap, because overlapping turns fire independently.
- `Attribution.RestartsAlwaysIff`: wall and monotonic clocks agree, and sandbox directory names, the first 16 digits of a digest, are distinct; runs in which a deletion drops a row under a pending turn are the subject of DeletionUnderTurnBreaksRestart.
- `Retention.ProductRetentionMonitor.Tick`: schedules are counted by the difference in table size, and an exception comes between two sessions; one that cuts a session's own deletion short is the subject of Attribution.
- `Runtime.NoOrphans`: for runs whose eager starts find no compiler yet, because an eager start over a live one orphans it.
- `Backup.CreateBackup`: gzip and tar are the identity on members, the quota database's bytes are those of its snapshot, and directories and modes are not modelled.
- `BackupRoundTrip.RoundTripIff`: that a valid state stays valid when reduced to its supported files with a fresh marker is a hypothesis on validation, whose contents are not modelled.
- `BackupCycle.OversizedBackupExists`: that validation does not look into sandbox files is a hypothesis, as validation's contents are not modelled.
- `BackupCycle.BackupDirectory.Cycle`: staging, the privacy check of the directory and its lock are not modelled, and file names are their parsed form.
