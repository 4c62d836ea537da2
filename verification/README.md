# TaskQ dispatch and its benchmark algorithms, modelled in Dafny

The project models the parts of TaskQ whose correctness is not visible from one
function: the claim round that dispatch workers run against PostgreSQL, the loops
that drain a backlog with it, the producer that sizes its claims by free slots, and
four algorithms the benchmarks spell out in full (the progress fingerprint, the
escape-parity NUL scan, the flamegraph, the build-context staging with its regression
gate). `dafny verify dfyconfig.toml` checks everything.

**The claim round** (`Claim`). One function per common table expression of the
statement, over one snapshot of the jobs table: residual capacity per actor, a window
per actor and queue, one row per identity, a rank per actor, a global LIMIT, the row
locks that were granted, the capacity gate, the final LIMIT, the UPDATE. `Ranking` gives
`ORDER BY ... LIMIT` and `ROW_NUMBER` their meaning on sets. Where the SQL leaves an
order open (`ORDER BY priority DESC, scheduled_at` without `id`), the tie-break is a
parameter, so every result holds for each choice the server may make. `RoundRobin` says
what a round claims without any of these stages, in the columns of the table: rows take
turns, one per actor at a time, the more urgent first. A queue listed
twice is probed twice, as `unnest` does. `Variant` names the three texts of the
rank-then-lock statement: `AsWritten` is the preamble as it stands, `Rendered` what the
substitution makes of it, `Literal` the form with literal bounds.

**Overlapping rounds** (`Rounds`, `Overdispatch`, `LatestRound`, `OverdispatchPeak`, `Drain`). A state
machine over steps of any number of workers: take a snapshot, try one row lock (skipped
when the row is locked or no longer pending), commit, finish a row, go on. Finer steps
than a statement, so more interleavings. `Rounds.Cluster` is the same protocol as
an object updated in place, and `Drain.DrainAll` runs it under an arbitrary scheduler and
is proved to stop. The over-dispatch bound the guides state for `max_concurrent`
(docs/guides/actors.md:137-149) rests on counts that are read once in the snapshot; the
statement modelled here reads them the same way, and the bound is proved for it, in a
sharper form that counts the rounds' own limit, together with runs that reach it.

**Slots** (`Slots`). Producer, bounded queue and consumers; each section between two
awaits is one step. The consumer's steps follow `consumer_loop_stub`: a row is out of
the queue before it is marked, and marked before it is registered.

**Fingerprint** (`JsPrint`, `Canonical`, `Fingerprint`). JSON values with ordered
properties and UTF-16 strings, `JSON.stringify` (section 25.5.2 of ECMA-262 2024) with a
reader of the JSON grammar (RFC 8259) as its inverse, and `Object.fromEntries` with the
order it really gives: integer-index keys first, by number (`IndexKeys`).

**NUL scan** (`NulScan`, `JsonEncode`, `JsonText`), **flamegraph** (`FlameTree`, `FlameLayout`,
`Flamegraph`), **staging** (`ContextWalk`, `Staging`) and **gate** (`Gate`) follow their
sources loop by loop; the flamegraph is over `real`.

## Where the source does not do what it says

- The rendered rank-then-lock text replaces the whole `residual * oversample` window by
  the oversample alone (benchmarks/pg_dispatch_depth_spike.py:236-252). With the
  probe's own parameters it claims 2 rows where the other forms claim 50
  (`ClaimVariants.SpikeRound`). The design note
  (docs/design/sql-hotpath-followups.md:85-91) reports that figure and puts it down to a
  generic plan; the text alone accounts for it. `ClaimVariants.LockOrderAgreesIff` and
  `NarrowWindow.RenderedRespectsPriorityIff` say exactly when the narrow window is harmless,
  for any queue list: a name listed k times counts k * k times, because `top_ids` is
  joined back to `ranked` by id.
- The lock-first text is documented to apply identity dedup after the locks
  (benchmarks/pg_dispatch_depth_spike.py:283-286). It has no identity filter at all. It
  starts no two jobs of one identity exactly when it can claim at most one job
  (`ClaimVariants.LockFirstTwinFreeIff`), and none beside a running one exactly when it
  can claim none (`ClaimVariants.LockFirstAlwaysKeepsIdentitiesIff`).
- The literal text plans up to 50 rows whatever limit is bound. The probe binds it with 50
  (benchmarks/pg_dispatch_depth_spike.py:353, 500), where it is fair
  (`ClaimFairness.FairShare`), and asks for one rendering per limit. Only if it is bound with a limit
  it was not rendered for, from 2 to 48, can its final LIMIT leave an actor with nothing
  while another gets two (`FairnessEdge.AlwaysFairIff`); the other texts are always fair.
- Free-slots sizing does not keep the number of rows held within `max_concurrency` in
  every interleaving: it cannot see a row between its `get()` and its registration.
  `Slots.DemandWithinSlotsIff` gives the exact condition on a run, `Slots.FullClaimHolds`
  how far a full claim overshoots, `Slots.UnsettledReachesTwice` a run that reaches twice
  the bound. The shipped producer also subtracts marked rows
  (src/taskq/worker/run.py:366-371) and is still blind between the `get()` and the mark.
- `stage_context` asks `is_dir()` before `is_symlink()`, so a link to a directory is staged as
  a directory (`Staging.NodesPublished`), and it can never stage an empty source
  (`Staging.EmptySourceNeverStages`).

## Model

| member | source | states |
|---|---|---|
| `ClaimSafety.ClaimsWithinLimit` | benchmarks/pg_dispatch_depth_spike.py:197-204 | no round claims more ids than its limit, for any locked rows and any tie-break |
| `ClaimSafety.ClaimsWithinCap` | benchmarks/pg_dispatch_depth_spike.py:180-204 | the ids claimed for a capped actor fit in what its running rows leave of max_concurrent |
| `ClaimSafety.ClaimedIsPlanned` | benchmarks/pg_dispatch_depth_spike.py:127-176 | whatever is claimed was due, registered, in a subscribed queue, among the top ids, and its lock was granted |
| `ClaimSafety.ClaimsOneIdentity` | benchmarks/pg_dispatch_depth_spike.py:147-163 | two claimed rows never share an actor and a non-null identity, and none shares one with a running row |
| `ClaimSafety.DedupKeepsSoonest` | benchmarks/pg_dispatch_depth_spike.py:147-157 | DISTINCT ON drops a row only in favour of one of the same identity that sorts no later, and that one stays |
| `ClaimSafety.StepKeepsSafe` | benchmarks/pg_dispatch_depth_spike.py:106-221 | a claim, an enqueue and a completion each keep: no capped actor over its cap, no identity running twice |
| `ClaimSafety.SerializedRunsAreSafe` | benchmarks/pg_dispatch_depth_spike.py:106-221 | over every run of serialized rounds, enqueues and completions from an idle table, both hold in every state and no round starts more rows than its limit |
| `ClaimPriority.TopClosed` | benchmarks/pg_dispatch_depth_spike.py:164-176 | the top ids are closed under taking a sooner row of the same actor |
| `ClaimPriority.WideWindowRespectsPriority` | benchmarks/pg_dispatch_depth_spike.py:127-204 | with null identities and no contention, a claimed job leaves no strictly better due job of its actor behind in any subscribed queue, if the window reaches the limit or the actor's remaining capacity |
| `ClaimPriority.ProductWindowRespectsPriority` | benchmarks/pg_dispatch_depth_spike.py:127-146 | the preamble's own window and the literal one always do, for every table, cap, limit and tie-break |
| `NarrowWindow.RenderedRespectsPriorityIff` | benchmarks/pg_dispatch_depth_spike.py:236-274 | for every queue list, the rendered text respects priority on every backlog of null identities if and only if no subscribed queue leaves room behind a full window: it is the only name, or oversample times the square of its copies is 0 or reaches the limit or the cap |
| `NarrowWindow.FrontIsProduct` | benchmarks/pg_dispatch_depth_spike.py:265-274 | the rows a full window puts in front number oversample times the square of the copies of the queue's name, one for each pair of slots the join of `top_ids` with `ranked` brings together |
| `NarrowWindow.DistinctQueues` | benchmarks/pg_dispatch_depth_spike.py:236-263 | with distinct names that is: at most one queue, or an oversample that is 0 or reaches the limit or the cap |
| `NarrowWindow.NarrowWindowInverts` | benchmarks/pg_dispatch_depth_spike.py:236-263 | otherwise a backlog on which, under every tie-break, the rendered text claims a job and leaves a more urgent one of the same actor |
| `ClaimFairness.Share` | benchmarks/pg_dispatch_depth_spike.py:164-204 | in an uncontended round over distinct queues no actor gets more than its rows among the top ids cut at its remaining capacity, and exactly that when the admitted rows fit the limit |
| `ClaimFairness.SharesIff` | benchmarks/pg_dispatch_depth_spike.py:197-204 | every actor gets its whole share if and only if the admitted rows fit the limit |
| `ClaimFairness.FairShare` | benchmarks/pg_dispatch_depth_spike.py:164-204 | over distinct queues, if one actor gets k claims and another fewer than k - 1, the second has used up its deduplicated candidates or its remaining capacity, for each text whose plan exceeds the limit by at most one row, and for every text at limit 0 or 1 |
| `FairnessEdge.AlwaysFairIff` | benchmarks/pg_dispatch_depth_spike.py:236-263 | a text and a limit are fair on every snapshot, configuration and tie-break if and only if they are such, or no queue is subscribed: the literal text from 2 to 48 is not |
| `ClaimVariants.LockFirstClaims` | benchmarks/pg_dispatch_depth_spike.py:280-336 | with uncapped actors and no held locks, lock-first claims exactly the first `limit` due rows of the subscribed queues, registered actors or not |
| `ClaimVariants.RankThenLockClaims` | benchmarks/pg_dispatch_depth_spike.py:224-277 | for one uncapped actor, null identities and distinct queues, each rank-then-lock text claims exactly the first rows of what its windows let through, as many as the smaller of its two LIMITs |
| `ClaimVariants.LockOrderAgreesIff` | benchmarks/pg_dispatch_depth_spike.py:521-535 | for one registered uncapped actor, null identities, distinct queues and no held locks, each rank-then-lock text claims the same set as lock-first if and only if no queue's share of the first `limit` due rows exceeds the window and the ranking LIMIT reaches the final one or all due rows |
| `ClaimVariants.WrittenAgreesWithLockFirst` | benchmarks/pg_dispatch_depth_spike.py:521-535 | the preamble's window always agrees with lock-first, and so does the literal one at limit 50, for any backlog and queue list |
| `ClaimVariants.LiteralMatchesWritten` | benchmarks/pg_dispatch_depth_spike.py:236-250 | at limit 50 and oversample 2, with no caps, the literal bounds claim the same set for any number of actors, identities and granted locks |
| `ClaimVariants.LiteralMatchesRenderedIff` | benchmarks/pg_dispatch_depth_spike.py:236-263 | the literal and the rendered text agree if and only if no queue's share outgrows the oversample |
| `ClaimVariants.SpikeRound` | benchmarks/pg_dispatch_depth_spike.py:81-82 | on one queue with 50 or more due rows, limit 50 and oversample 2: lock-first and literal claim 50, rendered claims 2 |
| `ClaimVariants.RankThenLockKeepsIdentities` | benchmarks/pg_dispatch_depth_spike.py:147-163 | no rank-then-lock round starts two jobs of one identity or one beside a running job of its identity |
| `ClaimVariants.LockFirstClaimsTwins` | benchmarks/pg_dispatch_depth_spike.py:280-336 | with uncapped actors lock-first starts two jobs of one identity among the first `limit` due rows, which no rank-then-lock round ever claims together |
| `ClaimVariants.LockFirstTwinFreeIff` | benchmarks/pg_dispatch_depth_spike.py:280-336 | over all tables, held locks and tie-breaks, lock-first starts no two jobs of one identity if and only if limit is at most 1, oversample is 0 or no queue is subscribed |
| `ClaimVariants.LockFirstAlwaysKeepsIdentitiesIff` | benchmarks/pg_dispatch_depth_spike.py:280-336 | it starts none beside a running job of its identity, either, if and only if limit or oversample is 0 or no queue is subscribed |
| `ClaimVariants.LockFirstClaimsFree` | benchmarks/pg_dispatch_depth_spike.py:280-336 | with uncapped actors it claims exactly the first `limit` due rows nobody else has locked |
| `RoundRobin.ClaimedIsWanted` | benchmarks/pg_dispatch_depth_spike.py:133-141 | in columns, for every text, cap, identity, lock and tie-break: a claimed row is pending, scheduled by now, not past its closing time, in a listed queue, of a registered actor, and its lock was granted |
| `RoundRobin.UrgentFirst` | benchmarks/pg_dispatch_depth_spike.py:127-204 | in columns: with null identities and no contention a wanted job with a larger priority, or an equal one and an earlier schedule, is not left behind by a claimed job of its actor, capped or not |
| `RoundRobin.HeldUrgentFirst` | benchmarks/pg_dispatch_depth_spike.py:164-204 | under contention, for every text, cap, identity, queue list, set of granted locks and tie-break: of the rows a round got it never takes a job over a more urgent one of the same actor |
| `RoundRobin.FinalPrefersUrgent` | benchmarks/pg_dispatch_depth_spike.py:197-204 | the final LIMIT keeps an admitted row before one of a later rank, or of the same rank and a smaller priority or a later schedule, whatever the actors |
| `RoundRobin.GatePrefersUrgent` | benchmarks/pg_dispatch_depth_spike.py:180-196 | the capacity gate never admits a row over a more urgent one of the same actor |
| `RoundRobin.RoundTakesTurns` | benchmarks/pg_dispatch_depth_spike.py:95-221 | for any number of uncapped actors, null identities, distinct queues and no contention, a round claims exactly the first rows of all that the WHERE clauses ask for, ordered by their place within their actor and then by priority, schedule and id, whatever the windows cut |
| `RoundRobin.WrittenTakesTurns` | benchmarks/pg_dispatch_depth_spike.py:127-176 | the preamble meets that for every limit and oversample of 1 or more, and the literal text from limit 50 on |
| `RoundRobin.IdentitiesTakeTurns` | benchmarks/pg_dispatch_depth_spike.py:106-176 | with identities, when no window cuts anything off: the same turns, taken by the rows that are the most urgent wanted ones of their actor and identity while that identity is not running |
| `RoundRobin.LockFirstIsAsked` | benchmarks/pg_dispatch_depth_spike.py:310-325 | in columns: what lock-first claims is pending, scheduled by now, not past its closing time, in a listed queue, and not locked by anyone else |
| `RoundRobin.LockFirstTakesUrgent` | benchmarks/pg_dispatch_depth_spike.py:280-336 | without caps it claims exactly the `limit` most urgent of those rows |
| `Rounds.StepKeepsInv` | benchmarks/pg_dispatch_depth_spike.py:265-274 | every step of every worker keeps: held rows are pending with one holder, claimed rows run in one batch until finished |
| `Rounds.LocksAreExclusive` | benchmarks/pg_dispatch_depth_spike.py:265-274 | in every interleaving no row is locked by two rounds |
| `Rounds.CommitUpdates` | benchmarks/pg_dispatch_depth_spike.py:205-221 | the UPDATE's own status test drops nothing: every claimed row is still pending and moves to running with one more attempt |
| `Rounds.StepTable` | benchmarks/pg_dispatch_depth_spike.py:205-221 | the whole table after every step of every worker: enqueued rows as they came, claimed ones running with one more attempt, finished ones finished, every other row untouched |
| `Rounds.RowClaimedOnce` | benchmarks/pg_dispatch_depth_spike.py:205-221 | in every interleaving a pending row is claimed at most once, has left pending exactly when it was, and its attempt count rose by exactly the number of claims |
| `Rounds.Cluster.constructor` | benchmarks/backlog_throughput.py:573-574 | n idle loops over a table, nothing counted |
| `Rounds.Cluster.BeginRound` | benchmarks/backlog_throughput.py:563-563 | the round's snapshot and the ids it will try |
| `Rounds.Cluster.TryLock` | benchmarks/pg_dispatch_depth_spike.py:265-274 | one SKIP LOCKED attempt: granted exactly when the row is pending now and nobody holds it |
| `Rounds.Cluster.CommitRound` | benchmarks/pg_dispatch_depth_spike.py:205-221 | the claimed rows run, all locks are gone, an empty round ends the loop |
| `Rounds.Cluster.MarkSucceeded` | benchmarks/backlog_throughput.py:566-570 | one claimed row finished and out of the batch |
| `Rounds.Cluster.NextRound` | benchmarks/backlog_throughput.py:571-571 | the batch size is added to the loop's own count |
| `Overdispatch.ClaimsWithinRoom` | benchmarks/pg_dispatch_depth_spike.py:106-204 | a round claims no more under a cap or an identity than its own snapshot leaves free, nor than its two LIMITs allow |
| `Overdispatch.StepKeepsQuotaInv` | docs/guides/actors.md:137-143 | every step keeps what runs plus what the rounds in progress may still start within the bound |
| `Overdispatch.RoundsBoundLoad` | docs/guides/actors.md:137-149 | in every interleaving of n workers whose rounds take at most `top` rows, no more runs than the quota plus (n - 1) times the smaller of the quota and `top` |
| `Overdispatch.OverdispatchBound` | docs/guides/actors.md:137-149 | hence, whatever the limits, a capped actor exceeds max_concurrent by at most (n - 1) times it, and an identity runs at most n times |
| `LatestRound.LatestClaimed` | benchmarks/pg_dispatch_depth_spike.py:127-221 | a round that gets the locks of an actor's most urgent rows, with room for them, claims exactly those |
| `OverdispatchPeak.OverdispatchReached` | docs/guides/actors.md:137-149 | for each text, each cap of 1 or more, each identity, each limit and each n some run whose rounds all use that text and limit reaches the bound exactly |
| `Drain.StepKeepsProgress` | benchmarks/backlog_throughput.py:557-571 | while a row is pending some loop is about to look, holds a lock, or has an unlocked pending row still to try |
| `Drain.AllReturned` | benchmarks/backlog_throughput.py:557-577 | once every loop has returned, every row was claimed once and finished and the counts sum to the backlog |
| `Drain.DrainedCountsSum` | benchmarks/backlog_throughput.py:573-577 | in every interleaving, with caps of 1 or more, any identities and any queues, when all loops have returned on an empty round nothing is pending and their counts sum exactly to the backlog |
| `Drain.StepFalls` | benchmarks/backlog_throughput.py:557-571 | every step lowers (rows pending plus loops running, work left before the next commit), so no schedule goes on for ever |
| `Drain.DrainAll` | benchmarks/backlog_throughput.py:573-577 | on such a backlog n loops under an arbitrary scheduler stop, each row is finished with one more attempt, and the returned counts sum to the backlog |
| `Slots.SizeKeepsBoundIff` | benchmarks/prefetch_slots.py:158-161 | sizing a claim brings demand to max_concurrency plus the rows the figure does not see, so it keeps the bound exactly when there are none |
| `Slots.FullClaimHolds` | benchmarks/prefetch_slots.py:172-177 | a full claim puts exactly those unseen rows above max_concurrency in the worker's hands |
| `Slots.FiguresCount` | benchmarks/prefetch_slots.py:157-161 | the three availability figures and the two tallies as sizes of sets of consumers: active from registration to deregistration, locked until the terminal write |
| `Slots.StepMovesFigures` | src/taskq/worker/run.py:1162-1312 | a claim locks its rows and a terminal write unlocks one; a put uses a place, a take frees one; a registration uses a slot, a deregistration frees one; nothing else moves the figures |
| `Slots.StepHandsOver` | src/taskq/worker/run.py:1162-1271 | a take gives the consumer the head of the queue, and no other step changes which row a consumer holds, except to let it go |
| `Slots.TakenInOrder` | benchmarks/prefetch_slots.py:181-185 | in every interleaving the rows taken, then those queued, then those in hand are the claimed rows in the order they were claimed |
| `Slots.TakenAreHeldOrFreed` | src/taskq/worker/run.py:1162-1312 | in every interleaving each row taken is with a consumer or has been let go, once for each time it was taken |
| `Slots.ClaimedOnceHeldOnce` | benchmarks/prefetch_slots.py:172-185 | so a row claimed once is in exactly one place: queued, in hand, with one consumer, or let go |
| `Slots.PutNeverBlocks` | benchmarks/prefetch_slots.py:181-185 | in every interleaving, under every sizing, the put finds a free place in the queue |
| `Slots.HeldWithinTwice` | benchmarks/prefetch_slots.py:157-186 | in every interleaving at most twice max_concurrency rows are held or locked |
| `Slots.DemandWithinSlotsIff` | benchmarks/prefetch_slots.py:157-186 | a run never has more than max_concurrency rows queued, claimed or with consumers, an outstanding claim counted in full, if and only if every claim is sized while the figure sees every row |
| `Slots.HeldWithinSlots` | benchmarks/prefetch_slots.py:157-186 | then at most max_concurrency rows are ever held or locked |
| `Slots.AtomicTakeKeepsBound` | benchmarks/prefetch_slots.py:212-258 | with consumers that take and register in one go, free-slots sizing keeps that bound in every run |
| `Slots.EmptinessReachesTwice` | benchmarks/prefetch_slots.py:160-161 | sizing by queue emptiness reaches exactly twice max_concurrency locked rows, even with such consumers |
| `Slots.UnsettledReachesTwice` | src/taskq/worker/run.py:1162-1271 | with the consumer's real steps every one of the three sizings reaches it |
| `Slots.Worker.constructor` | benchmarks/prefetch_slots.py:212-258 | an empty queue of max_concurrency places and as many waiting consumers |
| `Slots.Worker.SizeClaim` | benchmarks/prefetch_slots.py:157-166 | a claim is sized exactly when the figure is positive, and nothing else changes |
| `Slots.Worker.ReceiveClaim` | benchmarks/prefetch_slots.py:172-178 | the claimed rows are in hand and one more round is counted |
| `Slots.Worker.PutAllJobs` | benchmarks/prefetch_slots.py:181-185 | the whole hand goes on the queue in order, without a put that would block |
| `Slots.Worker.Advance` | src/taskq/worker/run.py:1162-1312 | one consumer makes its next step of take, mark, register, write, deregister |
| `JsPrint.PrintRoundTrip` | benchmarks/fingerprint_bench.js:36-36 | a reader of the JSON grammar turns what JSON.stringify prints back into the value, with nothing left over |
| `JsPrint.PrintInjective` | benchmarks/fingerprint_bench.js:36-36 | so it is injective on ordered values: equal text, equal value |
| `JsPrint.EscapesSpelled` | benchmarks/fingerprint_bench.js:36-36 | of the texts that read back as a character it prints the two-character escape, else four lower-case hexadecimal digits for controls and lone surrogates, else the character |
| `Canonical.ArrangeSorted` | benchmarks/fingerprint_bench.js:27-31 | an object rebuilt from its sorted entries lists integer-index keys by number, then the others by code units |
| `IndexKeys.IndexIff` | benchmarks/fingerprint_bench.js:27-31 | an integer-index key is the decimal numeral of a number below 2^32 - 1 |
| `IndexKeys.IndexOrder` | benchmarks/fingerprint_bench.js:27-31 | index keys are listed in numeric order |
| `IndexKeys.LexIff` | benchmarks/fingerprint_bench.js:29-29 | sort() compares keys by the first code unit in which they differ, a prefix first |
| `Canonical.CanonIff` | benchmarks/fingerprint_bench.js:24-34 | the canonical form is the one value that equals the given one up to key order and has every object, at every depth, in canonical order |
| `Canonical.CanonEqualIff` | benchmarks/fingerprint_bench.js:24-34 | two values have the same canonical form if and only if they are equal up to the order of object keys at every depth |
| `Canonical.CanonIdempotent` | benchmarks/fingerprint_bench.js:24-34 | canonicalizing a canonical form changes nothing |
| `Fingerprint.BuildIdentity` | benchmarks/fingerprint_bench.js:16-21 | the loop keeps exactly the four fields the state has, in list order |
| `Fingerprint.ProgressFingerprint` | benchmarks/fingerprint_bench.js:15-37 | null without any of the fields, else the canonical text of those present |
| `Fingerprint.FingerprintB` | benchmarks/fingerprint_bench.js:39-50 | the last fingerprint when the plain text equals it, else the fingerprint of the identity alone |
| `Fingerprint.FingerprintsEqualIff` | benchmarks/fingerprint_bench.js:15-37 | two states have equal fingerprints if and only if step, percent, detail and data agree up to key order at every depth |
| `Fingerprint.FingerprintReadsFour` | benchmarks/fingerprint_bench.js:13-37 | the same with the keys spelled: exactly when "step", "percent", "detail" and "data" each agree |
| `Fingerprint.FingerprintNullIff` | benchmarks/fingerprint_bench.js:16-22 | null if and only if the state has no property of any of those four names |
| `Fingerprint.FingerprintReads` | benchmarks/fingerprint_bench.js:15-37 | read as JSON a fingerprint is an object in canonical order, at every depth, of those of the four properties the state has, each with the state's value up to key order |
| `Fingerprint.FastIsExact` | benchmarks/fingerprint_bench.js:39-50 | given null or any state's fingerprint as `last`, the fast form returns what the full form returns |
| `Fingerprint.FastExactIff` | benchmarks/fingerprint_bench.js:39-50 | given anything as `last`, it differs from the full form exactly when `last` is the plain text of an identity that is not in canonical order |
| `Fingerprint.FastPathHitsOneField` | benchmarks/fingerprint_bench.js:13-13 | the shortcut can be taken only on a state with at most one of the four fields |
| `Fingerprint.FastPathHitsIff` | benchmarks/fingerprint_bench.js:39-50 | on a state with some of the fields it is taken if and only if there is just one, its value is its own canonical form, and the last state agrees with this one in all four up to key order |
| `Fingerprint.Ticks` | benchmarks/fingerprint_bench.js:68-77 | threading the fast form through any sequence of states gives the full fingerprint at every tick |
| `NulScan.ParityIsLexing` | benchmarks/ab_tors_nul_scan.py:53-62 | on every byte string the parity rule answers what reading the escapes from left to right answers |
| `NulScan.Find` | benchmarks/ab_tors_nul_scan.py:63-63 | the first match at or after a position, or -1 when there is none |
| `NulScan.EncodedHasNul` | benchmarks/ab_tors_nul_scan.py:63-73 | true exactly when some match follows an even run of backslashes; the inner loop takes at most as many steps as there are bytes, over the whole input |
| `NulScan.RunsDisjoint` | benchmarks/ab_tors_nul_scan.py:65-69 | the run before a match does not reach back to an earlier match |
| `NulScan.CountBackslashes` | benchmarks/bench_hotspots.py:351-355 | the length of the run before a position |
| `NulScan.RejectsNul` | benchmarks/bench_hotspots.py:358-363 | restarting six bytes after a match refuses exactly the inputs that restarting one byte after finds a NUL in |
| `JsonEncode.ScanMeansNul` | benchmarks/ab_tors_nul_scan.py:53-73 | on every encoded document the scan finds something exactly when some key or string contains U+0000 |
| `JsonEncode.LiteralTextIsLegal` | benchmarks/ab_tors_nul_scan.py:56-61 | wherever the literal six-character text stands in a string its bytes match, and the string is reported exactly when the rest of it holds a NUL |
| `JsonText.EncodeIsJson` | benchmarks/ab_tors_nul_scan.py:53-62 | the encoded bytes are the UTF-8 form of the text JSON.stringify prints for the document, which reads back as the document |
| `JsonEncode.Utf8RoundTrip` | benchmarks/ab_tors_nul_scan.py:53-62 | each character reads back from its UTF-8 bytes, which are as few as the standard asks |
| `JsonEncode.DumpsJsonbBytes` | benchmarks/bench_hotspots.py:357-364 | the encoded document, or the error exactly when it holds a NUL |
| `FlameTree.Collapse` | benchmarks/gil_sample.py:64-68 | each sampled stack with the number of times it was sampled, and no other |
| `FlameTree.Tree.Add` | benchmarks/gil_sample.py:103-112 | adding a stack keeps: the nodes are the prefixes of the stacks, each with the total count of the stacks through it, and children are listed in the order the stacks first reach them |
| `FlameTree.BuildTree` | benchmarks/gil_sample.py:101-113 | the tree of all stacks, with that property |
| `FlameLayout.LayoutWithin` | benchmarks/gil_sample.py:133-155 | everything below a node stays inside the node's span |
| `FlameLayout.LayoutRows` | benchmarks/gil_sample.py:150-155 | spans of one row run from left to right without overlap |
| `FlameLayout.LayoutNested` | benchmarks/gil_sample.py:150-155 | every span lies in the span drawn for its parent |
| `FlameLayout.LayoutComplete` | benchmarks/gil_sample.py:153-154 | a node at least 0.2 wide is drawn, because all its ancestors are at least as wide |
| `FlameLayout.LayoutPacked` | benchmarks/gil_sample.py:150-155 | each child starts at its parent's left edge or where a sibling ends |
| `FlameLayout.SortKidsFalls` | benchmarks/gil_sample.py:151-151 | children come in order of falling value, equal ones in the order they were first seen |
| `FlameLayout.LayoutOrdered` | benchmarks/gil_sample.py:150-155 | each node is drawn once, of two siblings the larger first, and of two equal ones the one first seen |
| `FlameLayout.Emit` | benchmarks/gil_sample.py:133-155 | the recursion that multiplies shares of shares draws each node with its share of the whole |
| `Flamegraph.LayoutIsFlamegraph` | benchmarks/gil_sample.py:116-157 | the layout of a built tree has exact widths, draws exactly the nodes wide enough, each once and larger siblings first and equal ones in the order the stacks first reach them, nests, leaves no gap before a child, does not overlap, and stays on the canvas below the title |
| `Flamegraph.RectsApart` | benchmarks/gil_sample.py:133-155 | no two rectangles overlap, and all lie between the margins, below the title and above the bottom |
| `Flamegraph.WriteFlamegraph` | benchmarks/gil_sample.py:116-157 | the same from the stacks, in numbers: a canvas of a row of 16 for each level of the deepest stack, one for the root, and 40; rectangles 14 high in rows of 16 from 24 above the bottom, 0.4 narrower than their span but at least 0.2; and which inputs raise: no stacks, or none with a sample |
| `ContextWalk.PrefixIsAncestor` | benchmarks/example_image_spec.py:85-85 | a path that starts with a directory's path and a slash lies below that directory |
| `ContextWalk.SortedIsListing` | benchmarks/example_image_spec.py:88-88 | sorting paths component by component puts every directory before what it holds and lists no path twice |
| `ContextWalk.PathBeforeIff` | benchmarks/example_image_spec.py:88-88 | paths sort by the first component in which they differ, names by code points, a prefix first |
| `ContextWalk.TestIsRule` | benchmarks/example_image_spec.py:82-85 | at every point of the pass the incremental test says what the rule on ancestors says |
| `ContextWalk.KeptIff` | benchmarks/example_image_spec.py:82-95 | kept are exactly the listed entries of which no pattern at all matches the path or the path of an ancestor |
| `ContextWalk.KeptInOrder` | benchmarks/example_image_spec.py:88-95 | in the order of the listing |
| `ContextWalk.KeptIsListing` | benchmarks/example_image_spec.py:87-95 | what is kept is closed under parent directories, parents first |
| `ContextWalk.ContextEntries` | benchmarks/example_image_spec.py:72-95 | the walk returns exactly the paths with no ancestor-or-self matching a pattern, in order |
| `Staging.CopyIff` | benchmarks/example_image_spec.py:128-137 | folding the list gives the one tree with a node at every listed path and nowhere else: a directory for what is one, else the link with its target, else the file with its bytes |
| `Staging.CopyContext` | benchmarks/example_image_spec.py:128-137 | the copy loop, making parents as it goes, makes exactly that tree |
| `Staging.StagingIsSafe` | benchmarks/example_image_spec.py:110-147 | in every run of concurrent stagers over a fixed non-empty source, with a rename that fails on a non-empty target, the target is absent or a complete copy, is published at most once, no stager reports a lost race, and one that returns has a complete copy |
| `Staging.PublishedOnce` | benchmarks/example_image_spec.py:138-147 | in every run from an absent target, the target exists if and only if exactly one stager has published |
| `Staging.NodesPublished` | benchmarks/example_image_spec.py:130-137 | each as an if-and-only-if: a directory or a link to one is published as a directory, another link as that link, a file with its bytes |
| `Staging.TargetIsStable` | benchmarks/example_image_spec.py:119-142 | once the target exists no step of any stager changes it |
| `Staging.EmptySourceNeverStages` | benchmarks/example_image_spec.py:126-147 | with nothing to copy nothing is ever published and no stager returns |
| `Staging.Cache.constructor` | benchmarks/example_image_spec.py:118-121 | no target, no scratch directories |
| `Staging.Cache.StageContext` | benchmarks/example_image_spec.py:110-147 | alone, it publishes the complete copy or reuses what is there, raises exactly when a copy fails or the source is empty, publishing nothing then, and leaves the scratch directories as they were |
| `Gate.Compare` | benchmarks/run_bench.py:227-284 | the two loops emit the merged rows and fail exactly when some row's verdict is REGRESSION or MISMATCH, or raise what the merge raises |
| `Gate.MergeCovers` | benchmarks/run_bench.py:227-284 | for unique names, one row per name of either run, each with the verdict the two records alone determine |
| `Gate.JudgeMeans` | benchmarks/run_bench.py:258-272 | the whole row for a bench both runs timed, without division and for every threshold and delta: the two timings, the percentage, each verdict, and what is raised instead; a baseline without "correct" counts as correct |
| `Gate.CompareRows` | benchmarks/run_bench.py:227-284 | for any two runs, repeated names included: the current results in order, each judged against the last baseline record of its name the first time the name comes up and NEW after that, then one MISSING row for each baseline name the current run lacks |
| `Gate.MergeOk` | benchmarks/run_bench.py:227-284 | with a non-zero threshold and complete current records nothing is raised |
| `Gate.GateIsSymmetric` | benchmarks/run_bench.py:227-284 | for unique names, complete records, a positive threshold and a non-negative minimum delta, swapping the runs exchanges REGRESSION with IMPROVED and NEW with MISSING, name by name |

## Left out

- Drain.DrainAll: a backlog of rows some round can claim; a row of an unregistered actor, an actor with cap 0 or a queue nobody reads, one not yet due, or one with a deadline that may pass stays pending when the loops return, and the bench seeds none.
- Staging.Cache.StageContext: the permissions and times that the copy keeps are not modelled.
- The shipped dispatch statement in src/taskq/backend (round-robin fairness, reservations, rate limits) and the v0 and v3 probes: a different and longer chain of the same stages.
- Leases, heartbeats, claim epochs and the columns the UPDATE clears: the model keeps status and attempt.
- Query plans, indexes and the order of RETURNING: the contract is the claimed set.
- The producer's cooldown, jitter, poll interval and wake-up event: they delay steps and add none.
- Shutdown and drain of the consumer loop, and claims handed back.
- Printing a number: a number is its printed token, so two numbers are equal when they print alike.
- orjson beyond the escapes of section 7 of RFC 8259, and lone surrogates, which it refuses.
- `fnmatch.fnmatchcase` (a parameter) and the digest that names the staging target.
- The SVG text: titles, labels, colours, one-decimal rounding of coordinates.
- Timing, percentiles, profilers, command lines, database set-up and result files.
