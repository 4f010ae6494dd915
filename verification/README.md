# Verification of the SCADA gateway and platform

A Dafny model of the parts of the solar SCADA system whose correctness is not plumbing: the edge
middleware that polls Modbus devices and hands readings to the platform, the platform's half of
the protocols with it, and two pieces of dashboard arithmetic.

- **Polling.** `addressing`, `decoding`, `planning`, `equalkeys`, `fewest`, `polling`, `refinement`,
  `sharedaddresses`, `holding`: configured registers become wire addresses, are packed greedily into
  read requests, read with a fallback to single reads, sliced and decoded. A device is a function from
  requests to responses, and device memory a function from (function code, address) to a word. The
  main results are that a poll reports exactly what the device holds at the configured registers,
  that batching refines one-at-a-time polling, covers exactly what is configured, issues only legal
  requests, and uses no more of them than any other grouping of the registers.
- **Configuration.** `normalizing`, `configured`, `accepting`, `acceptedsets`: the gate every
  configuration passes. What it accepts is what was sent, field by field, canonical, stable under the
  gate, and plannable.
- **Readings to the platform.** `outbox`, `delivery`, `progress`, `idle`: the file store as an object,
  the drain and acknowledge protocol over a channel that loses, repeats and delays, and the filter
  that drops readings which repeat the last stored one.
- **Configuration push.** `sqlite`, `loading`, `configpush`, `pushhistory`: the transaction that
  replaces the configuration, what is read back from its tables and polled, and the versioned push
  over an unreliable channel.
- **Concurrency.** `updatejobs`, `jobhistory`, `gate`: batch update jobs and the one-token channel,
  under every interleaving.
- **Dashboard.** `telemetry`, `downsampling`, `energy`, `layout`, `alarms`: chart downsampling,
  energy buckets, the layout validator and the alarm fold.

`results`, `integers`, `text`, `domain` and `sequences` hold what these share.

Protocols are state machines: a run is any sequence of possible steps, messages stay on the
channel once sent (so one may arrive late, repeatedly or never), and main results hold in every
state of every run. Code that updates state is a class or a loop proved against a specification
function, and the main results are proved about those functions. Where the code falls short of a
property, the model keeps the code as it is and states the exact condition; where a configuration
is to blame, it also shows one that passes the gate:

- a word-swapping type alias loses its swap when a poll normalises it (`Decoding.AliasMeaning`,
  `AcceptedSets.SwappedAliasIsAccepted`);
- values are keyed by register address alone, so they are exact if and only if the registers that
  share an address are read alike (`SharedAddresses.ValuesAreExactIff`), and the gate accepts
  configurations in which they are not (`SharedAddresses.SharedAddressLosesAValue`);
- the sort is not stable, and whether that can change the number of requests is decided by the
  groups that hold a register longer than the limit (`EqualKeys.RequestCountIsStableIff`,
  `EqualKeys.AcceptedSetDependsOnOrder`);
- a batch of readings of which some are rejected is acknowledged whole, so a rejected reading can be
  lost, and only such a one (`Delivery.LostIffDropped`, `Delivery.MixedBatchLosesAReading`);
- the outbox's id counter can be rewound by a configured id equal to the largest int64
  (`Outbox.LiftingGrows`, `Delivery.RewoundCounterLosesAReading`,
  `AcceptedSets.AnyBrandIdIsAccepted`);
- a push that overtakes another, or a commit whose record fails, leaves the gateway on another
  configuration than the versions say (`ConfigPush.CommitIsUpToDateIff`);
- a batch that names a middleware twice can report an inexact status (`UpdateJobs.ExactIffDistinct`);
- a layout item whose right edge overflows an int64 is accepted (`Layout.AcceptanceIsExact`).

One comment promises more than the code does, and the model follows the code: the gateway's
configuration acknowledgement is said to reflect exactly what the history recorded
(`modbus-api-middleware/internal/realtimeclient/client.go:191-196`), but when the history row
cannot be written, a committed configuration is acknowledged as failed.

Run `dafny verify dfyconfig.toml` in this directory.

## Model

| member | source | states |
|---|---|---|
| `Addressing.ModeNameRoundTrip` | modbus-api-middleware/internal/profile/address.go:16-36 | a mode's canonical name is trimmed, upper-case and parses back to that mode |
| `Addressing.ResolveModbusAddress` | modbus-api-middleware/internal/profile/address.go:38-72 | whatever resolves is a legal request: function code 3 or 4, quantity 1..125, start and end within the 16-bit address space, quantity as configured |
| `Addressing.Resolve` | modbus-api-middleware/internal/profile/address.go:43-71 | no 16-bit conversion wraps: resolution succeeds exactly when the request the mode promises is legal (and, for full notation, the register is 30000..49999), and then yields that request |
| `Addressing.NotationsAgree` | modbus-api-middleware/internal/profile/address.go:16-72 | all notations agree: a register resolves to a request exactly when that is the register its notation writes, by any of the notation's names, and the request is legal |
| `Addressing.ResolveFailsFor` | modbus-api-middleware/internal/profile/address.go:43-71 | which of the four errors an unresolvable register gets: the first that applies |
| `Decoding.Decode` | modbus-api-middleware/internal/decoder/decoder.go:53-107 | the decoded value is the positional value of the words in word order, read in the named type, with the error cases and the three sentinels |
| `Decoding.DecodeU64` | modbus-api-middleware/internal/decoder/decoder.go:86-103 | the in-place reversal and shift loop give the base-65536 positional value of the words, reversed for LOW_HIGH; all ones is a sentinel |
| `Decoding.ReverseInPlace` | modbus-api-middleware/internal/decoder/decoder.go:91-94 | the swap loop leaves the array exactly reversed |
| `Decoding.Accumulate` | modbus-api-middleware/internal/decoder/decoder.go:96-99 | the shift-and-or loop computes the positional value |
| `Decoding.BytesToRegisters` | modbus-api-middleware/internal/decoder/decoder.go:109-123 | an odd byte count is an error, otherwise word i is bytes 2i and 2i+1 as high and low byte, or low and high when the order is LITTLE_ENDIAN in some case |
| `Decoding.WordsByName` | modbus-api-middleware/internal/decoder/decoder.go:109-123 | the two byte orders by name, in plain arithmetic: BIG_ENDIAN is high byte first, LITTLE_ENDIAN low byte first |
| `Decoding.DecodeInvertsEncode` | modbus-api-middleware/internal/decoder/decoder.go:53-123 | what a device sends for a number in the named byte and word order comes back as that number, except the three all-bits sentinels, which give NaN |
| `Decoding.EveryPatternIsANumber` | modbus-api-middleware/internal/decoder/decoder.go:58-103 | every pattern of words of a type stands for a number of the type |
| `Decoding.NotNumbers` | modbus-api-middleware/internal/app/service.go:190-194 | the singles that are skipped as NaN are those with bits in two ranges, just above the two infinities |
| `Decoding.DecodeFailsIff` | modbus-api-middleware/internal/decoder/decoder.go:53-107 | decoding fails on no words, an unknown type name or too few words, in this order, and never otherwise |
| `Decoding.NormalizeTwice` | modbus-api-middleware/internal/decoder/decoder.go:19-36 | normalising a data type keeps its meaning and is idempotent |
| `Decoding.AliasMeaning` | modbus-api-middleware/internal/decoder/decoder.go:57-58 | replacing an alias by its canonical name, as a poll does, keeps every decoded value if and only if the alias is not a word-swapping one of a 32-bit type read without LOW_HIGH |
| `AcceptedSets.SwappedAliasIsAccepted` | modbus-api-middleware/internal/store/normalize.go:160-183 | the gate accepts an address of a word-swapping type as it is, read without LOW_HIGH |
| `Planning.CollectEntries` | modbus-api-middleware/internal/profile/blocks.go:28-45 | the entries are the enabled registers, resolved, in order, or the first error |
| `Planning.CollectSucceedsIff` | modbus-api-middleware/internal/profile/blocks.go:29-45 | collecting succeeds exactly when every enabled register has a legal length and resolves |
| `Planning.EntryIsAsWritten` | modbus-api-middleware/internal/profile/blocks.go:32-44 | a register becomes an entry where its notation writes it, unchanged but for the function code, exactly when it can be requested there |
| `Planning.CollectIsFlat` | modbus-api-middleware/internal/profile/blocks.go:28-45 | what is collected is each enabled register's own entry, in order, and nothing else |
| `Planning.SortEntries` | modbus-api-middleware/internal/profile/blocks.go:46-51 | some permutation sorted by function code and offset; nothing is said of equal keys |
| `Planning.PlaceEntry` | modbus-api-middleware/internal/profile/blocks.go:54-72 | one turn of the packing loop in 16- and 32-bit arithmetic equals the join rule on unbounded integers |
| `Planning.NoWrap` | modbus-api-middleware/internal/profile/blocks.go:54-71 | no uint16 or uint32 conversion, sum or difference of the packing loop wraps |
| `Planning.PackEntries` | modbus-api-middleware/internal/profile/blocks.go:52-74 | the loop computes the greedy packing, and fails exactly when an entry ends past 65536 |
| `Planning.BuildBlocks` | modbus-api-middleware/internal/profile/blocks.go:20-75 | the result is the greedy packing of some sorted permutation of the entries; the only errors are resolution errors, so the loop's range check never fires |
| `Planning.PlanCoversExactly` | modbus-api-middleware/internal/profile/blocks.go:52-73 | a plan's entries are a permutation of the enabled registers, each lies in its own block, every address of a block lies in one of its entries, and blocks are ordered by function code and start |
| `Planning.PlannedRequestsAreLegal` | modbus-api-middleware/internal/profile/blocks.go:20-73 | every planned request has quantity 1..125, at most the limit or the block's longest register, and ends by 65536 |
| `Planning.PackFollowsGreedy` | modbus-api-middleware/internal/profile/blocks.go:58-72 | the number of blocks and the last block follow the greedy cut described by entry positions alone: its end is the highest end of the run so far |
| `Planning.StaysAhead` | modbus-api-middleware/internal/profile/blocks.go:58-72 | after every entry, greedy packing has used fewer runs than any other cut, or as many with a last run that starts no earlier |
| `Planning.GreedyIsOptimal` | modbus-api-middleware/internal/profile/blocks.go:46-73 | no cut of the sorted entries into consecutive runs obeying the same join test has fewer runs than the plan has blocks, for every limit and every length |
| `Planning.PlanIsOptimal` | modbus-api-middleware/internal/profile/blocks.go:20-75 | every plan is the greedy packing of some sorted order of the entries, and no cut of that order has fewer runs |
| `EqualKeys.GroupActsAsLongest` | modbus-api-middleware/internal/profile/blocks.go:53-72 | entries with one function code and offset, none longer than the limit, act on the packing as the longest of them, in whatever order |
| `EqualKeys.RequestCountIsStableIff` | modbus-api-middleware/internal/profile/blocks.go:46-73 | the unstable sort cannot change the number of requests if and only if, wherever a register is longer than the limit, those at its function code and offset that are not join the block open before them |
| `EqualKeys.PlannedCountIsStableIff` | modbus-api-middleware/internal/profile/blocks.go:20-75 | the same for all plans of a profile |
| `EqualKeys.RequestCountIsStable` | modbus-api-middleware/internal/profile/blocks.go:46-73 | in particular it cannot when no register is longer than the limit |
| `EqualKeys.AcceptedSetDependsOnOrder` | modbus-api-middleware/internal/store/normalize.go:35-65 | the gate accepts a device set for which it does: a U16 and a U32 at one address with a block size of 1 take two requests or one |
| `Fewest.NoGroupingIsSmaller` | modbus-api-middleware/internal/profile/blocks.go:46-73 | no choice of requests at all that serves every register, in whatever grouping, each with one function code, no unconfigured address and a span within the limit, is smaller than a plan |
| `Fewest.PlanIsAGrouping` | modbus-api-middleware/internal/profile/blocks.go:46-73 | with no register longer than the limit, the plan is such a choice, so it is a smallest one |
| `Planning.GreedyIsACut` | modbus-api-middleware/internal/profile/blocks.go:46-73 | the plan is itself such a cut, so the bound is attained |
| `Polling.PollConnection` | modbus-api-middleware/internal/app/service.go:136-236 | a poll returns what sweeping some plan of the device set collects; it fails exactly when planning fails, nothing is enabled, or nothing was measured |
| `Polling.SweepBlocks` | modbus-api-middleware/internal/app/service.go:203-226 | the loop reads each block and falls back to single reads as specified |
| `Polling.FallBack` | modbus-api-middleware/internal/app/service.go:216-225 | the fallback loop reads every register of the block on its own |
| `Polling.DecodeEntry` | modbus-api-middleware/internal/app/service.go:176-202 | an entry is sliced out of the response and recorded, or leaves one failure; a short response never indexes out of bounds |
| `Polling.PlannedEntriesAreLegal` | modbus-api-middleware/internal/app/service.go:203-217 | every register a sweep handles is a legal request of its own |
| `Refinement.ReadBlockMeasures` | modbus-api-middleware/internal/app/service.go:203-226 | whether or not the block read fails, a block adds exactly its registers' own values, sentinels left out |
| `Refinement.BatchedMeasuresAsNaive` | modbus-api-middleware/internal/app/service.go:165-226 | if each register's own read is answered and answers are device memory, a poll takes the same measurements as reading every register alone, whichever block reads fail; its values are the registers' own just when measurements at one address agree |
| `Refinement.DistinctAddressesAgree` | modbus-api-middleware/internal/app/service.go:195-200 | with distinct register addresses they do agree |
| `Refinement.BatchingNeverMeasuresLess` | modbus-api-middleware/internal/app/service.go:165-226 | whichever requests fail, as long as answers are device memory, a batched poll takes every measurement that reading each register alone takes, and none that is not a register's own value; if those agree at each address, its values extend the other's |
| `Refinement.NothingSkippedSilently` | modbus-api-middleware/internal/app/service.go:162-226 | for any device at all, each enabled register comes to exactly one outcome, fixed by what the device answers to its block and to it alone: the measurements are those of the registers with a value, and every other register leaves a failure at its own function code, offset and length |
| `SharedAddresses.BatchedRefinesNaive` | modbus-api-middleware/internal/app/service.go:165-226 | batched polling refines one-at-a-time polling: the same measurements, and, when registers that share an address and come to a value have the same function code, type and (beyond one word) word order, the same values, exactly the registers' own |
| `SharedAddresses.DistinctIsCompatible` | modbus-api-middleware/internal/app/service.go:195-201 | distinct register addresses meet that condition |
| `SharedAddresses.ValuesAreExactIff` | modbus-api-middleware/internal/app/service.go:195-201 | that condition on the configuration is exact: for a plan, every memory and every device that answers each register's own read gives exact values if and only if it holds |
| `SharedAddresses.SharedAddressLosesAValue` | modbus-api-middleware/internal/app/service.go:195-201 | the gate accepts a device set that reads register 100 under both function codes, and a poll of it keeps one of the two values |
| `Holding.SendsIsFaithful` | modbus-api-middleware/internal/app/service.go:165-175 | a device that sends its memory in the named byte order is read word for word |
| `Holding.HeldValueIsOwn` | modbus-api-middleware/internal/app/service.go:176-201 | a register whose words stand for a number, in its own word order or else the common one, comes to that number; the patterns for no value are skipped |
| `Holding.NoValueOtherwise` | modbus-api-middleware/internal/app/service.go:184-189 | words that are all there come to no value otherwise only for an unknown type or a length below the type's |
| `Holding.FailedReads` | modbus-api-middleware/internal/app/service.go:165-183 | a register's own read fails as unanswered, odd or incomplete just as the device leaves it |
| `Holding.PollReportsWhatIsHeld` | modbus-api-middleware/internal/app/service.go:136-226 | whichever requests fail, a register whose own read is answered is sampled with the number it holds, and shown if registers at one address agree |
| `Holding.ConfiguredRegisterIsReported` | modbus-api-middleware/internal/app/service.go:136-226 | every poll of an accepted device set samples every enabled register it can read with the number held where its notation writes it, in the set's byte order and in its own word order or else the set's |
| `Holding.OnlyConfiguredIsReported` | modbus-api-middleware/internal/app/service.go:136-226 | and nothing else: every sample is an enabled address of the set, at its own place, and what its words stand for |
| `Normalizing.NormalizeConfigSnapshot` | modbus-api-middleware/internal/store/normalize.go:21-88 | the result is the checked sections in order, or the first error |
| `Normalizing.CheckAll` | modbus-api-middleware/internal/store/normalize.go:25-86 | a section's loop stops at the first error and otherwise collects the checked elements and the ids seen |
| `Normalizing.EachMeaning` | modbus-api-middleware/internal/store/normalize.go:25-86 | a section succeeds exactly when all its elements do, element by element; otherwise its error is that of the first failing element |
| `Normalizing.ValidationIsExact` | modbus-api-middleware/internal/store/normalize.go:160-183 | an address passes validation exactly when it is described, of a known type, 1..4 registers long, and reads a legal request under the mode |
| `Normalizing.NormalizeAddressTidies` | modbus-api-middleware/internal/store/normalize.go:121-147 | normalising leaves nothing to trim or fill in, and no zero-based register in 30000..49999 |
| `Normalizing.NormalizeConnectionFills` | modbus-api-middleware/internal/store/normalize.go:185-219 | unit id at least 1 and equal to the slave id, and every name filled |
| `Normalizing.CheckedDeviceSetIsCanonical` | modbus-api-middleware/internal/store/normalize.go:35-65 | an accepted device set has a known brand, a known mode under its canonical name, known orders, a block size of 1..125, and at least one address, all readable |
| `Normalizing.NormalizationIsAStableClosure` | modbus-api-middleware/internal/store/normalize.go:21-211 | what is accepted is canonical and is accepted again unchanged, and exactly the canonical snapshots pass unchanged; brand and device-set references resolve |
| `Configured.AcceptedIsAsSent` | modbus-api-middleware/internal/store/normalize.go:21-245 | what is accepted is what was sent, one for one and in order: each field is kept, tidied, or filled in by its own rule, lengths by the width of the type |
| `Configured.OmittedLengthDecodes` | modbus-api-middleware/internal/store/normalize.go:139-141 | an address sent without a length, as the platform sends them, never fails to decode for its length or type |
| `Configured.RefusedForFirstFault` | modbus-api-middleware/internal/store/normalize.go:160-183 | an address is refused for the first fault it has, and accepted if it has none |
| `Configured.SetRefusedForFirstFault` | modbus-api-middleware/internal/store/normalize.go:36-65 | a device set is refused for the first fault it has |
| `Accepting.ZeroBasedReadsFullNotation` | modbus-api-middleware/internal/store/normalize.go:127-158 | for registers 30000..49999, zero-based normalising then resolving gives the request full notation gives |
| `Accepting.ProfileIsAsConfigured` | modbus-api-middleware/internal/app/service.go:141-142 | an accepted device set is polled under exactly its own mode, orders and block size |
| `Accepting.ProfileIsOfSet` | modbus-api-middleware/internal/app/service.go:136-142 | any device set is polled in its own mode and orders, or the usual ones where they are blank, with one register for each address |
| `Accepting.AcceptedIsPlannable` | modbus-api-middleware/internal/app/service.go:136-145 | every device set of an accepted configuration can be planned |
| `Outbox.FileStore.TakeId` | modbus-api-middleware/internal/store/file_arch.go:107 | ids are handed out in order and the counter wraps as an int64 |
| `Outbox.FileStore.Enqueue` | modbus-api-middleware/internal/store/file_arch.go:464-478 | a new, untried row is appended under the next id exactly when no row has its key |
| `Outbox.FileStore.Ready` | modbus-api-middleware/internal/store/file_arch.go:479-493 | the first eligible rows, up to the limit, a limit below 1 acting as 1 |
| `Outbox.ReadyReturnsTheOldest` | modbus-api-middleware/internal/store/file_arch.go:479-493 | only eligible rows, at most a batch, by increasing id; an eligible row is passed over only when the batch is full of older ones |
| `Outbox.FileStore.MarkAsDelivered` | modbus-api-middleware/internal/store/file_arch.go:494-509 | exactly the rows with listed ids become delivered |
| `Outbox.FileStore.Failed` | modbus-api-middleware/internal/store/file_arch.go:510-531 | rows with listed ids are retried with exponential back-off or given up, once per listing |
| `Outbox.FailedRowWaits` | modbus-api-middleware/internal/store/file_arch.go:510-531 | a row that failed is eligible again exactly when its delay is over, or never if it may not be retried |
| `Outbox.BackoffDoubles` | modbus-api-middleware/internal/store/file_arch.go:523 | the delay is a second at first, doubles with each failure, and stays at 256 seconds from the ninth on |
| `Outbox.FileStore.ClearDeliveryLogs` | modbus-api-middleware/internal/store/file_arch.go:545-559 | exactly the delivered and dead rows go, in order, and are counted; the waiting rows stay |
| `Outbox.FileStore.CleanupOld` | modbus-api-middleware/internal/store/file_arch.go:586-610 | exactly the expired rows and poll logs go, in order, and are counted; waiting rows and what was settled since the cut stay |
| `Outbox.FileStore.SavePollLog` | modbus-api-middleware/internal/store/file_arch.go:560-571 | a poll log is appended, taking an id from the shared counter if it has none |
| `Outbox.FileStore.CurrentConfigVersion` | modbus-api-middleware/internal/store/file_arch.go:611-621 | the highest version recorded as applied, or 0 |
| `Outbox.FileStore.ApplyConfigSnapshot` | modbus-api-middleware/internal/store/file_arch.go:634-668 | a rejected snapshot is recorded and changes nothing else; an accepted one replaces the configuration and lifts the counter over its ids |
| `Outbox.TakingGrows` | modbus-api-middleware/internal/store/file_arch.go:107 | a fresh id is larger than the one before it exactly while the counter has not reached the largest int64 |
| `Outbox.LiftingGrows` | modbus-api-middleware/internal/store/file_arch.go:652-666 | lifting leaves the counter above everything issued and configured exactly when no configured id is the largest int64 |
| `Outbox.LiftIsExact` | modbus-api-middleware/internal/store/file_arch.go:652-666 | lifting goes no further than it must: the counter stays or ends just past a configured id |
| `Outbox.ConfiguredIdsAre` | modbus-api-middleware/internal/store/file_arch.go:652-666 | the ids lifted over are those of brands, device sets and connections |
| `Delivery.DrainSize` | modbus-api-middleware/internal/realtimeclient/client.go:286-288 | a drain asks for 1..500 rows, 20 when the request is outside that |
| `Delivery.HandleDrain` | modbus-api-middleware/internal/realtimeclient/client.go:273-302 | the reply pairs the ids and readings of the oldest eligible rows and changes nothing |
| `Delivery.HandleAck` | modbus-api-middleware/internal/realtimeclient/client.go:303-313 | exactly the acknowledged rows become delivered |
| `Delivery.StepKeeps` | modbus-api-middleware/internal/store/file_arch.go:464-559 | every step of store, drain, ingest, acknowledge, report, clear and clean-up keeps the protocol invariant |
| `Delivery.NoReadingIsLost` | modbus-api-middleware/internal/store/file_arch.go:464-610 | in every run, with messages lost, repeated or delayed, each created reading is waiting in the outbox, or was kept by the platform as created, or was dropped by it out of a batch it kept in part, or was given up on by a failure report for its row |
| `Delivery.LostIffDropped` | services/platform-api/internal/telemetrypull/puller.go:203-217 | a waiting reading that the platform has not kept can be lost by an acknowledgement on its way if and only if the platform rejected it out of a batch it kept in part |
| `Delivery.MixedBatchLosesAReading` | services/platform-api/internal/telemetrypull/puller.go:203-217 | that happens: a run in which one reading of a batch of two is kept, the batch is acknowledged, and the other reading is lost |
| `Delivery.DeliveredWasReceived` | modbus-api-middleware/internal/realtimeclient/client.go:273-313 | nothing received is made up, and a row is delivered only if its own reading was received, and kept or dropped, however late the acknowledgement |
| `Progress.NoReadingIsStuck` | modbus-api-middleware/internal/realtimeclient/client.go:273-313 | from every reachable state a waiting reading can still be kept: draining, ingesting and acknowledging are enough, however many older readings wait before it |
| `Delivery.IdsAreNeverReused` | modbus-api-middleware/internal/store/file_arch.go:107 | what has been created only grows and each later reading gets an id above all earlier ones |
| `Delivery.RewoundCounterLosesAReading` | modbus-api-middleware/internal/store/file_arch.go:652-666 | the bound on the counter is needed: a run in which a configured id equal to the largest int64 rewinds the counter and a repeated acknowledgement loses a reading |
| `AcceptedSets.AnyBrandIdIsAccepted` | modbus-api-middleware/internal/store/normalize.go:25-34 | the gate accepts a brand of any id, the largest int64 and 0 among them, and the id is one the counter is lifted over |
| `Idle.Service.SetIdleHeartbeat` | modbus-api-middleware/internal/app/service.go:105-121 | afterwards the heartbeat in force is the given number of seconds if that is 60..86400 and half an hour otherwise, so always between a minute and a day |
| `Idle.Service.SkipUnchanged` | modbus-api-middleware/internal/app/service.go:377-395 | a reading is skipped exactly when it repeats the baseline, is not older, and is younger than the heartbeat; otherwise it becomes the baseline |
| `Idle.Service.Enqueue` | modbus-api-middleware/internal/app/service.go:334-352 | refused, skipped or passed to the store, with the baseline dropped again unless a row was created without error |
| `Idle.RunKeeps` | modbus-api-middleware/internal/app/service.go:334-401 | in every run a device's baseline is the last row created for it |
| `Idle.SkippedIsHeld` | modbus-api-middleware/internal/app/service.go:105-121 | in any run, with store failures, heartbeat changes and restarts, a skipped poll repeats the last row created for its device, and that row is younger than the heartbeat in force, at most a day |
| `Idle.SkippedIff` | modbus-api-middleware/internal/app/service.go:334-395 | in any run a poll is skipped if and only if the last poll of its device that was passed on was stored, with the same values, not later and within the heartbeat, and no restart came between |
| `Idle.HoldingReproducesPolls` | modbus-api-middleware/internal/app/service.go:334-401 | holding the last stored value reproduces every poll that was skipped or stored |
| `Idle.RowsReproduceSkippedPolls` | modbus-api-middleware/internal/app/service.go:377-395 | for a device polled in non-decreasing time, looking a skipped poll's time up in the final rows gives the values it read, or else a row that a later poll stored at that very millisecond |
| `Idle.SameMillisecondTakesOver` | modbus-api-middleware/internal/app/service.go:377-395 | that exception is real: a changed reading at the same millisecond as a skipped poll is stored and found instead |
| `SqlStore.InsertDeviceSets` | modbus-api-middleware/internal/store/config_history.go:100-111 | the nested loops insert every device set and address in order, or stop at the first failing statement or repeated key |
| `SqlStore.Replace` | modbus-api-middleware/internal/store/config_history.go:84-123 | the delete and insert loops turn the tables into exactly the snapshot's, if every statement succeeds and no key repeats |
| `SqlStore.SqliteStore.ApplyConfigSnapshotTx` | modbus-api-middleware/internal/store/config_history.go:79-124 | all or nothing: it succeeds exactly when the gate accepts, no primary key repeats and no statement fails, and otherwise the tables are untouched |
| `SqlStore.SqliteStore.ApplyConfigSnapshot` | modbus-api-middleware/internal/store/config_history.go:63-77 | the outcome is recorded after the attempt, and success is reported only if both went through |
| `SqlStore.SqliteStore.Addresses` | modbus-api-middleware/internal/store/configuration.go:245-260 | the addresses of a device set, by function code, register and id |
| `SqlStore.SqliteStore.DeviceSet` | modbus-api-middleware/internal/store/configuration.go:235-243 | the device set of the row with that id whose brand exists, with its addresses |
| `SqlStore.SqliteStore.Connection` | modbus-api-middleware/internal/store/configuration.go:287-315 | the connection of the row with that id whose device set and brand exist, normalised |
| `Loading.StoredSetIsAccepted` | modbus-api-middleware/internal/store/config_history.go:84-123 | a device set is read back from the tables column by column as it was accepted, with all its own addresses and no others, in the order of the query |
| `Loading.StoredSetIsThere` | modbus-api-middleware/internal/store/configuration.go:235-243 | and it is found |
| `Loading.StoredConnectionIsAccepted` | modbus-api-middleware/internal/store/config_history.go:117-122 | a connection is read back as it was accepted, its slave id filled in again |
| `Loading.StoredConnectionIsThere` | modbus-api-middleware/internal/store/configuration.go:293-315 | and it is found |
| `Loading.StoredBrandsAndPlants` | modbus-api-middleware/internal/store/config_history.go:95-116 | brands are read back as accepted; a plant is found under its code with the last name given for it |
| `Loading.StoredSetIsPolledAsAccepted` | modbus-api-middleware/internal/app/service.go:124-145 | the stored device set is canonical, can be planned, and has exactly the plans and orders of the accepted one |
| `Loading.PushedRegisterIsReported` | modbus-api-middleware/internal/store/config_history.go:79-124 | from the push to the sample: every register pushed enabled, with or without a length, is reported by every poll of the stored set with the number the device holds in the orders that were pushed |
| `ConfigPush.Platform.Push` | services/platform-api/internal/core/middleware_config.go:967-1012 | a push takes the next version and records the snapshot under it |
| `ConfigPush.Platform.RecordConfigAck` | services/platform-api/internal/core/middleware_config.go:1048-1068 | an acknowledgement sets the push's status and raises, never lowers, the applied version |
| `ConfigPush.HandleConfigSnapshot` | modbus-api-middleware/internal/realtimeclient/client.go:197-237 | the gateway applies the message's version and acknowledges what the store answered |
| `ConfigPush.StepKeeps` | services/platform-api/internal/core/middleware_config.go:967-1068 | each step keeps the protocol invariant and lowers no version |
| `ConfigPush.VersionsAreSafe` | services/platform-api/internal/core/middleware_config.go:1048-1068 | in every run, with messages lost, repeated, delayed and reordered, applied version <= gateway's highest applied version <= configuration version, and none ever decreases |
| `ConfigPush.CommitIsUpToDateIff` | modbus-api-middleware/internal/store/config_history.go:63-77 | a commit leaves the gateway on its highest applied version if and only if it is recorded and no newer version was recorded before (or repeats that version unrecorded) |
| `ConfigPush.InOrderRunsHoldTheHighest` | modbus-api-middleware/internal/store/config_history.go:31-124 | with in-order delivery, recorded commits and no local edits, the tables are always what the gate makes of the highest applied version |
| `ConfigPush.OvertakingPushIsLost` | modbus-api-middleware/internal/store/config_history.go:63-77 | out of order it fails: the gateway ends on the older configuration while both sides report the newer |
| `ConfigPush.UnrecordedCommitIsReportedFailed` | modbus-api-middleware/internal/store/config_history.go:70-76 | a commit whose record fails is reported as failed although the gateway runs on it |
| `PushHistory.PushesTellTheirSteps` | services/platform-api/internal/core/middleware_config.go:967-1068 | in every run the platform's version is the number of pushes, and each version is recorded with its own snapshot and the last word on it |
| `PushHistory.AppliedIsHighestAcknowledged` | services/platform-api/internal/core/middleware_config.go:1048-1068 | the applied version is the highest that a recorded acknowledgement says is applied |
| `PushHistory.HighestIsCommitted` | modbus-api-middleware/internal/store/config_history.go:28-40 | the gateway's highest applied version is the highest it committed and recorded |
| `UpdateJobs.JobStore.Create` | services/platform-api/internal/core/middleware_update_jobs.go:47-58 | one pending item per id in a running job |
| `UpdateJobs.JobStore.StartItem` | services/platform-api/internal/core/middleware_update_jobs.go:60-68 | only that item changes; an unknown job is left alone |
| `UpdateJobs.JobStore.FinishItem` | services/platform-api/internal/core/middleware_update_jobs.go:70-100 | the item is finished and the job's status becomes the verdict on all items |
| `UpdateJobs.JobStore.UpdateProgress` | services/platform-api/internal/core/middleware_update_jobs.go:102-110 | only that item's progress changes |
| `UpdateJobs.JobStore.Get` | services/platform-api/internal/core/middleware_update_jobs.go:112-120 | the job, if there is one |
| `UpdateJobs.StatusOf` | services/platform-api/internal/core/middleware_update_jobs.go:88-97 | whatever the order of the map, running if some item is open, else failed if some failed, else succeeded |
| `UpdateJobs.StepKeeps` | services/platform-api/internal/core/middleware_update_jobs.go:144-172 | with distinct ids, every step of every goroutine keeps the status exact |
| `UpdateJobs.StatusIsExact` | services/platform-api/internal/core/middleware_update_jobs.go:144-172 | with distinct ids, under every interleaving the status is exact at every moment, is running until exactly 2n start and finish steps have been taken, and never changes after |
| `JobHistory.ItemsTellTheirSteps` | services/platform-api/internal/core/middleware_update_jobs.go:60-110 | with distinct ids, under every interleaving, each item says exactly what its own goroutine did: its status, failed just when its end said so, its error, its times and its last progress |
| `JobHistory.VerdictTellsTheEndings` | services/platform-api/internal/core/middleware_update_jobs.go:82-99 | a settled job is failed if and only if some item ended in failure, and succeeded if and only if every item that ended did so without |
| `JobHistory.TimesTellTheSteps` | services/platform-api/internal/core/middleware_update_jobs.go:52-99 | a job keeps what it was created with, and finishes when its last item ends |
| `UpdateJobs.ExactIffDistinct` | services/platform-api/internal/core/middleware_update_jobs.go:144-172 | the status is exact in every reachable state if and only if the ids are distinct |
| `MaintenanceGate.Service.Gate` | modbus-api-middleware/internal/app/service.go:41-49 | the channel is made at most once, with one token, as the state machine's gate does it |
| `MaintenanceGate.Service.TryBeginPoll` | modbus-api-middleware/internal/app/service.go:62-69 | a sweep begins exactly when it takes the token, and the call is the state machine's ask and receive, or ask and give up |
| `MaintenanceGate.Service.BeginMaintenance` | modbus-api-middleware/internal/app/service.go:53-60 | maintenance begins when the wait ends with the token, and the call is the state machine's ask and receive, or ask and cancel |
| `MaintenanceGate.Service.EndPoll` | modbus-api-middleware/internal/app/service.go:71 | the token goes back, by the state machine's finish and send |
| `MaintenanceGate.OneTokenIsConserved` | modbus-api-middleware/internal/app/service.go:41-71 | in every interleaving at most one channel is made, its tokens and their holders add up to one, no two goroutines sweep or maintain at once, and returning the token never blocks |
| `MaintenanceGate.SkippedOnlyWhenHeld` | modbus-api-middleware/internal/app/poller.go:17-21 | a sweep is skipped only while another goroutine holds the token, and the token can be taken exactly while none does |
| `Downsampling.RangeIsProper` | apps/web/app/lib/telemetry-math.ts:174-175 | every candidate range is a non-empty interval of inner indices |
| `Downsampling.RangesPartition` | apps/web/app/lib/telemetry-math.ts:174-175 | each index 1..n-2 is a candidate of exactly one bucket |
| `Downsampling.AveragesAreInBounds` | apps/web/app/lib/telemetry-math.ts:163-164 | every average is over a non-empty range of existing points |
| `Downsampling.BucketsAreEven` | apps/web/app/lib/telemetry-math.ts:174-175 | no two buckets differ by more than one point |
| `Downsampling.AreaIsShoelace` | apps/web/app/lib/telemetry-math.ts:181-183 | the area is the shoelace formula's, the same for all three corners |
| `Downsampling.OutlierIsPicked` | apps/web/app/lib/telemetry-math.ts:177-187 | an extreme is kept: a candidate that alone is off the line from the anchor to the target is the one picked |
| `Downsampling.AveragesJoin` | apps/web/app/lib/telemetry-math.ts:165-172 | an average is the averages of two parts weighted by their numbers of points, and of one point the point |
| `Downsampling.Downsample` | apps/web/app/lib/telemetry-math.ts:157-194 | at most the threshold of points is returned as is; otherwise exactly threshold points at a selection's indices |
| `Downsampling.PickLargest` | apps/web/app/lib/telemetry-math.ts:177-187 | the first candidate of largest triangle area |
| `Downsampling.SelectionIsWellFormed` | apps/web/app/lib/telemetry-math.ts:157-194 | both end points, one pick from each bucket, each the first of largest area against the pick before it and the average after it, at strictly increasing indices |
| `Downsampling.SelectionIsUnique` | apps/web/app/lib/telemetry-math.ts:157-194 | there is only one such selection |
| `Downsampling.DownsampleTwice` | apps/web/app/lib/telemetry-math.ts:158 | downsampling again changes nothing |
| `Energy.TotalEnergyKWh` | apps/web/app/lib/telemetry-math.ts:45-55 | the loop sums the segments; no total for other units |
| `Energy.LifetimeCounter` | apps/web/app/lib/telemetry-math.ts:57-63 | a counter that never falls totals its last reading less its first, times the unit factor |
| `Energy.ResetCountsAsNothing` | apps/web/app/lib/telemetry-math.ts:57-63 | a counter that falls back once totals what it rose before and after |
| `Energy.LinearPower` | apps/web/app/lib/telemetry-math.ts:57-60 | power that changes at a steady rate totals its exact integral over time, however it is sampled |
| `Energy.ConstantPower` | apps/web/app/lib/telemetry-math.ts:57-60 | so a kilowatt for an hour is a kilowatt-hour |
| `Energy.SplitAtSharedSample` | apps/web/app/lib/telemetry-math.ts:45-55 | totals add up when a series is split at a sample both parts keep |
| `Energy.UnitsAgree` | apps/web/app/lib/telemetry-math.ts:10-13 | the unit table is consistent: one series expressed in W, kW and MW, or in Wh up to GWh, has one energy |
| `Energy.BucketEnergy` | apps/web/app/lib/telemetry-math.ts:73-88 | the buckets group each segment under its earlier sample's key, by start |
| `Energy.SumBuckets` | apps/web/app/lib/telemetry-math.ts:126-136 | the sums group all devices' buckets by key, by start |
| `Energy.GroupingConserves` | apps/web/app/lib/telemetry-math.ts:73-136 | keys are distinct and exactly those given, each bucket holds exactly what its key was given and starts with the first part of its key, and nothing is lost |
| `Energy.BucketsHoldTheTotal` | apps/web/app/lib/telemetry-math.ts:73-88 | the buckets of a series add up to its total energy, for any time zone |
| `Energy.BucketHoldsItsOwn` | apps/web/app/lib/telemetry-math.ts:73-88 | each bucket holds exactly the energy of the segments whose earlier sample falls in its own hour or day |
| `Energy.SiteEnergyIsConserved` | apps/web/app/lib/telemetry-math.ts:126-136 | summed over devices, the buckets add up to the devices' totals |
| `Layout.ValidateItems` | services/platform-api/internal/core/dashboard_layout.go:177-193 | the nested loops accept exactly the item lists that pass every check |
| `Layout.ValidateDashboardLayouts` | services/platform-api/internal/core/dashboard_layout.go:161-207 | the validator accepts exactly the layouts that pass on every breakpoint with one widget set |
| `Layout.CollideIffShareACell` | services/platform-api/internal/core/dashboard_layout.go:183-187 | the interval test finds exactly the pairs that share a grid cell |
| `Layout.AcceptanceIsExact` | services/platform-api/internal/core/dashboard_layout.go:161-207 | a layout is in bounds, pairwise disjoint, unique, complete and of one widget set if and only if it is accepted and no right edge overflows an int64 |
| `Layout.ItemCountFollows` | services/platform-api/internal/core/dashboard_layout.go:174-176 | distinct registered widgets that cover the required ones are five to seven, so the length test rejects nothing more |
| `Layout.OverflowIsAccepted` | services/platform-api/internal/core/dashboard_layout.go:179 | the overflow matters: an accepted layout with an item outside the grid, whose area breaks the packing bound |
| `Layout.AreaIsBounded` | services/platform-api/internal/core/dashboard_layout.go:177-188 | accepted items none of whose right edges overflows have a total area of at most columns times the height in use, by counting cells |
| `Layout.DefaultsAreAcceptable` | services/platform-api/internal/core/dashboard_layout.go:135-159 | the default layouts are acceptable |
| `Alarms.EvaluateConditions` | services/platform-api/internal/core/alarms.go:648-662 | true exactly when some longest run of conditions not broken by OR is all true |
| `Alarms.OrJoinsVerdicts` | services/platform-api/internal/core/alarms.go:648-662 | joining two lists with OR gives the disjunction of their verdicts |
| `Alarms.VerdictIsMonotone` | services/platform-api/internal/core/alarms.go:648-662 | turning conditions true never turns the verdict false |

## Left out

- Sockets, HTTP, WebSocket framing, SQL text and file writes: a device's answer, a store's outcome and a message's arrival are parameters or steps. Writes of the file store are taken to succeed.
- SharedAddresses.BatchedRefinesNaive: the device answers the same request the same way throughout one poll; a device whose memory changes during a sweep is outside the model.
- Text.UpperTrim: maps ASCII letters only; Go also maps letters beyond ASCII.
- Decoding.Decode: values are exact integers and the raw bits of singles; the rounding of a U64 above 2^53 to a float64 is not modelled.
- Planning.SortEntries: its body picks one sorted permutation; the library sort is not stable, so everything is proved for any sorted permutation.
- Sequences.Sort: stands for both languages' library sorts, of which only a sorted permutation is relied on.
- Register scale, offset and unit fields, diagnostic texts and hints, read latencies, and the unit id sent with a request: nothing modelled depends on them.
- Outbox.FileStore.Enqueue: the payload is the reading itself rather than its JSON text and hash, and a call reads the clock once.
- Outbox.FileStore.ApplyConfigSnapshot: answers nothing, as the file store reports no error for a rejected snapshot; the acknowledgement protocol is modelled over the SQL store.
- Delivery.NoReadingIsLost: which readings of a batch the platform keeps is the step's choice; the rules by which its ingestion rejects a reading are not modelled, and a reading it had already counts as kept.
- Delivery.IdsAreNeverReused: covers the outbox; brands, device sets, plants and other rows only consume ids. Reopening the store is not a step.
- Idle.SkippedIsHeld: compares values rather than hashes and device fields rather than their joined text, and takes calls one at a time, as sweeps are by the maintenance gate.
- Idle.RowsReproduceSkippedPolls: two readings of one device at the same millisecond cannot be told apart by time, so a later poll at the skipped poll's very millisecond is an exception.
- SqlStore.SqliteStore.ApplyConfigSnapshotTx: primary keys are modelled; other uniqueness and foreign keys are not modelled separately, and a statement they refuse is one that fails. Cache swapping and the pushed gateway settings are left out.
- Loading.PushedRegisterIsReported: follows the SQL store; the file store keeps the accepted snapshot itself, and the cache that a store-less service would read is not modelled.
- ConfigPush.Platform.RecordConfigAck: the transaction is one step; the SENT mark may in reality land after the acknowledgement, which only affects the displayed push status.
- UpdateJobs.StatusIsExact: what a goroutine does between starting and finishing its item is a progress report or nothing; the batch size limit of 1..100 only enters as non-emptiness.
- Downsampling.Downsample: the bucket size is the exact fraction and coordinates are reals; binary floating point is not modelled.
- Energy.TotalEnergyKWh: sums are over reals, and unit names that a JavaScript object inherits are not looked up.
- Energy.BucketEnergy: the time zone is any pair of functions from a time to its bucket's key and start; filling empty buckets is left out.
- Layout.ValidateDashboardLayouts: widget and breakpoint names are constructors with a catch-all for any other text; the chart widgets' configurations are not validated here.
- Alarms.EvaluateConditions: two or more conditions with fewer connectors than conditions are out of range in the source, so that is a precondition.
- Authentication, roles, licences, audit, the updater's scripts, settings import and export, and the React components.
