# Bob: a verified model of the ledgers, hashes, stores and pipeline

Bob follows a Qubic network. It replays log events into two open-addressed tables, the
spectrum (QU balances) and the universe (assets), checks the result against votes of 676
computors by Merkle roots that it maintains incrementally, indexes the events and moves old
ticks to disk. This project models those parts in Dafny and proves what they promise.
`dafny verify dfyconfig.toml` checks everything.

## How it is built

- Code that changes arrays or fields in place is a class or a method over arrays, proved
  equal to a function on values; the promised properties are lemmas about that function.
  No lemma relies on automatic induction.
- `Probing`, `AssetTable`, `AssetLedger`, `AssetConservation`, `AssetEpoch`,
  `AssetEpochResults`, `AssetRuns`: the asset table, its operations, conservation, the
  rebuild at the end of an epoch and runs. `AssetHoldings` and `HoldingRuns` tell the same
  by keys: who owns and possesses how many shares. `Universe` is the class that does it in place.
- `ChangeFlags`, `MerkleTree`, `IncrementalDigest`, `UniverseRuns`: the flag bitset that is
  reused level by level, and why the incremental roots are exact over every run.
- `SpectrumTable`, `Spectrum`, `QuReplay`, `SpectrumRuns`: balances as a map, supply,
  dividends and windowed digests; `Accounts`: each record field by field over runs.
  `SpectrumStore` is the class. `Replay`, `ReplayRoom` and `Replayer` are the replay loop over
  both ledgers, and `ReplayMeaning` what a log means, read off event by event without the loop.
- `Powers`, `Limbs`, `Field1271`, `FieldExp`, `Montgomery`, `Wnaf`: 64-bit limb arithmetic.
- `Sponge`, `TreeHash`: TurboSHAKE128 and KT128 as RFC 9861 defines them (sections 2.2, 3.2
  and 3.3), and what one pass over the message holds. `KangarooTwelve` is the one-shot
  implementation, `TurboShakeSponge` and `XkcpKangarooTwelve` the incremental one.
- `Identity`, `TopicIndex`, `TopicSearch`: 60-letter identities and the topic index.
- `PacketQueue`, `RingBuffer`: the packet ring. `TickVotes`, `TickStore`, `Quorum`: votes.
  `Tiering`, `Cleaner`: crash-safe moving of ticks to disk. `Pipeline`: the five threads;
  `Arrivals`: the messages that are stored meanwhile.

## Main results

They are marked with "Main" in the table.

- Assets: conservation over every run, exact rebuild at the end of an epoch, and what every
  operation and every run do to each holding, told by keys.
- Incremental Merkle roots equal those from scratch over every run, for both ledgers, and
  the replay loop with both roots (`Replayer.Replayer.VerifyBatch`).
- QU supply and every field of every record over every run, and when exactly a debit that
  fails creates QU.
- Exactly when a log is replayed to its end, and what that does to both ledgers.
- Field, Montgomery and recoding arithmetic for all inputs; both KangarooTwelve
  implementations against RFC 9861 for every split of the input.
- Identities, the packet ring and the topic search, each with its exact exceptions.
- Quorum decisions, crash safety of the cleaner, the order of the threads, and exactly when
  a message is stored too late.

## Readings and assumptions

- The hash functions and the Keccak permutation are function parameters. Nothing is assumed
  about them. The literal query text for "any topic" is read as the lower-case identity of
  the zero key.
- Public keys of ledgers are numbers; the home slot uses their low 32 bits. Capacities are
  parameters: any positive size for the tables, a power of two of at least 64 for the digest
  trees. `x & (capacity - 1)` is read as `x % capacity`.
- Probe loops have no bound in the code. One ends exactly when an unused slot or the wanted
  record stops it (`CanProbeWhen`), and each operation asks for just that of the probes it
  makes; a refusal asks for nothing. An unused slot is all zero bytes.
- Share counts and balances are unbounded integers: the total supply is assumed to fit in
  64 bits. Transfer counters wrap at 32 bits as in the code. The destination contract index
  of a rights change is cut to 16 bits, as the assignment does.
- The replay stops (`Exited`) where the code calls `exit`, and is `Undefined` where the code
  would loop or index out of the table: a foreign custom message in a dividend window, a
  failed lookup in a rights change of shares, a probe that the event makes and nothing stops.
- The x86 intrinsics are meant, as in the build with AVX2. The portable substitutes for
  `_addcarry_u64` and `_subborrow_u64` (K12AndKeyUtil.h:1040-1052) lose the carry or borrow
  when the second operand is 2^64 - 1 and one comes in; the arithmetic results are not
  claimed for them.
- In `_addcarry_u64(.., _umul128(.., &uv), ..) + uv` the call happens before `uv` is read,
  and in the last step of the Montgomery multiplication the additions come before the
  subtraction.
- A little-endian lane added to the sponge state is eight bytes added to eight bytes. The
  AVX2 leaf hashing is modelled on four states side by side.
- A thread that waits on a condition variable does not change anything: a critical section
  is one step, and a step that cannot be taken yet is `Blocked`.
- The stores do what they are asked to: no errors, no expiry, one command at a time.

## What turned out not to hold

Each of these is stated with its exact condition or with a concrete case.

- A transfer that its source cannot cover creates QU (`QuReplay.UncoveredTransferCreatesQu`),
  and so does a batch of dividends, unless the batch is refused as a whole
  (`QuReplay.UncoveredDividendsCreateQu`).
- Two texts can be accepted as the identity of one key: groups of letters are read modulo
  2^64 (`Identity.DecodeEncode`, `Identity.SecondText`).
- Compress-then-delete is crash-safe exactly for ticks with data and at most 225 empty votes
  or with nothing stored (`Cleaner.CrashSafeIffMovable`). A tick that was voted empty while
  tick data is stored loses that data in a crash between the two deletions, an empty tick
  changes from "no tick data" to blank tick data, and a tick without data and without an
  empty quorum loses its votes.
- The votes of a tick alone are crash-safe exactly if there is tick data, more than 225 empty
  votes, or no vote (`Tiering.VotesSafeIff`).
- The comparison with the verifying tick does not keep late messages out. It comes before
  the signature check, and the insertion after it. A vote or tick data is stored on a tick
  that was cleaned exactly if the cleaner deleted the tick in between
  (`Arrivals.LateIffDroppedMeanwhile`), which some run does for every tick ahead of the start
  (`Arrivals.LateIffAhead`). Whatever is stored while the verifying tick is at most five
  ticks ahead is in time in every run, and no larger bound has that property
  (`Arrivals.FiveIsExact`). What readers then see: `Tiering.VoteDuringMove`,
  `Tiering.DataDuringMove`; a late vote hides all votes on disk (`Tiering.LateVoteHides`).
- Cached tick data that does not match the quorum is kept for the tick although the stored
  copy is deleted. After a call the tick is refused forever exactly if that happened
  (`Quorum.RefusedIffMismatched`).
- A packet that declares fewer than eight bytes can wait although it is complete
  (`PacketQueue.ReadyAtHeader`). One that declares one or two bytes leaves whole exactly if
  the next bytes in the ring, read as the rest of its size, are zero
  (`PacketQueue.OldestLeavesWhole`).
- A search without topics finds nothing if it asks for plain transfers, that is type 0 of
  contract 0, or for contract 0 as a whole; every other search is a linear scan
  (`TopicSearch.SearchIsScan`, `TopicSearch.ContractSearchMeansContract`).
- The comment on `fpexp1251` gives another exponent than the chain computes, a^(2^125 - 1).

## Model

| member | source | states |
|---|---|---|
| `Probing.Scan` | Asset.h:366-387 | every `goto` probe loop terminates when some slot stops it, and ends at the first stopping slot of the cyclic walk |
| `Probing.ProbeIsFirst` | Asset.h:366-387 | a probe ends at the first slot on the walk that satisfies the stop test |
| `Probing.FirstIsProbe` | Asset.h:366-387 | the first stopping slot is unique, so any walk that finds one agrees with the probe |
| `AssetTable.LocateDecides` | Asset.h:366-441 | a lookup finds a record exactly when one with that identity is anywhere in the table; an unused slot at the end of the probe proves absence |
| `AssetTable.LocateFinds` | Asset.h:366-441 | the slot a lookup returns is the slot of the only record with that identity |
| `AssetTable.CanProbeWhen` | Asset.h:366-441 | a lookup ends exactly if some slot is unused or the record is in the table |
| `AssetTable.PutKeepsWellFormed` | Asset.h:366-441 | filling the unused slot that a new record's probe reaches keeps probe chains, links and uniqueness |
| `AssetTable.SumUpdate` | Asset.h:204-236 | how replacing one record moves the share totals of the records that link to it |
| `AssetLedger.ProbeOnward` | Asset.h:78-96 | a probe that goes on from a slot already reached from the key's home ends where the probe from home would |
| `AssetLedger.IssueKeepsWellFormed` | Asset.h:63-134 | issueAsset keeps every record findable although the ownership probe starts behind the issuance slot and the possession probe behind the ownership slot; exactly three unused slots receive the linked records |
| `AssetLedger.SendKeeps` | Asset.h:136-263 | moving shares to a found-or-created record keeps the table well formed and touches only the two records |
| `AssetLedger.MoveKeeps` | Asset.h:136-263 | the whole find-or-create, debit, credit sequence on ownership and possession, stated on the old table only |
| `AssetLedger.MoveEndsWhen` | Asset.h:198-263 | how much room the two find-or-create probes of a move need: two unused slots, one, or none, by which destination records exist |
| `AssetLedger.PossessorSearchAgrees` | Asset.h:266-364 | the search that ignores the managing contract ends at the record findPossessionIndex finds, and its early exit is unreachable, when managers agree |
| `AssetConservation.MoveConserves` | Asset.h:136-263 | a move keeps every ownership record equal to the sum over its possession records and no share count negative |
| `AssetConservation.MoveKeepsTotals` | Asset.h:443-553 | a move leaves the total of every asset unchanged |
| `AssetConservation.MoveKeepsManagers` | Asset.h:443-553 | a move to one managing contract for owner and possessor keeps the agreement of managing contracts |
| `AssetConservation.BurnConserves` | Asset.h:165-195 | a burn lowers exactly one asset's total, by the burned amount, and keeps the balance of owners and possessors |
| `AssetConservation.IssueConserves` | Asset.h:63-134 | an issuance adds exactly its shares to exactly its own asset |
| `AssetEpoch.TracedFitsIn` | Asset.h:555-645 | the table being rebuilt never uses more slots than the old one |
| `AssetEpoch.UntracedLeavesRoom` | Asset.h:555-645 | while some old record is not carried over, the new table uses fewer slots, even if the old one is full |
| `AssetEpoch.TraceIsExact` | Asset.h:555-645 | a record of the new table has the identity of an old record exactly when it was carried over from it |
| `AssetEpoch.CarryKeeps` | Asset.h:565-640 | one round of the rebuild keeps the trace from new to old records and the share accounts of the slots done so far |
| `AssetEpoch.RoundHasRoom` | Asset.h:565-640 | each of the three probes of a round meets an unused slot, so each terminates |
| `AssetEpoch.RebuildIsTraced` | Asset.h:555-645 | after any number of rounds every new record is traced to one old record and none twice |
| `AssetEpochResults.EndEpochKeeps` | Asset.h:555-645 | for every well-formed table, a full one included: the rebuilt table is well formed, needs no more slots, holds no ownership or possession record without shares, and keeps the ledger invariant |
| `AssetEpochResults.EndEpochConserves` | Asset.h:555-645 | Main: the rebuild conserves the total of every asset |
| `AssetEpochResults.EndEpochKeepsHoldings` | Asset.h:555-645 | Main: every (issuer, name, owner, possessor, managing contracts) key keeps its share count |
| `AssetEpochResults.EndEpochKeepsBalances` | Asset.h:648-666 | Main: a balance query that ends before the rebuild ends after it; positive answers survive, all others become the answer for a missing record |
| `AssetRuns.StepKeeps` | Asset.h:63-645 | every operation keeps the table sound and changes each asset's total by exactly what it issues minus what it burns |
| `AssetRuns.StepKeepsWellFormed` | Asset.h:63-645 | every operation keeps the table well formed, from unbalanced tables and over negative issuances too |
| `AssetRuns.CompletesWithRoom` | Asset.h:63-645 | with three unused slots every probe of every operation ends, and the rebuild needs none |
| `AssetRuns.StepUses` | Asset.h:63-645 | an issuance uses at most three slots, any other operation at most two, the rebuild none |
| `AssetRuns.ContractSharesAreNotBurned` | Asset.h:165-195 | no operation burns shares of an asset with zero issuer |
| `AssetRuns.RunConserves` | Asset.h:63-645 | Main: over every run the total of every asset is the initial one plus issued minus burned, and contract shares never decrease |
| `AssetRuns.ReplayKeepsManagers` | LoggingEventProcessor.cpp:278-282 | in every state reached from replay the managing contracts of possession and ownership agree, so the seven-argument transfer picks the record findPossessionIndex finds |
| `AssetHoldings.HoldingChanges` | Asset.h:136-645 | in a table that keeps all records of another, each holding differs by as much as its slot does |
| `AssetHoldings.TransferHands` | Asset.h:136-263 | Main: exactly when the transfer is accepted; then the source holding and its ownership record lose n shares, those of the destination under the same managing contracts gain n, or nobody does for the zero key, and every other holding and ownership record keeps its count |
| `AssetHoldings.RightsHand` | Asset.h:443-553 | exactly when the rights change is accepted; then n shares of this owner and possessor change their managing contracts and nothing else does |
| `AssetHoldings.IssueGives` | Asset.h:63-134 | a new asset has the given decimals and unit, and all its shares are with the issuer under the managing contract; a known asset is not issued again |
| `AssetHoldings.LookupsMean` | Asset.h:280-330 | what the lookups of issuance and owner decide about the holding |
| `AssetHoldings.PossessorDecides` | Asset.h:311-363 | the search that ignores the managing contract finds a record of this owner and possessor exactly if there is one |
| `AssetHoldings.TransferByKeyHands` | Asset.h:266-364 | Main: told by keys alone: what moves, and what is returned: the shares left at the source, how many are missing, or -1; a refusal because of another managing contract only if there is a record under one, which agreeing managers exclude |
| `AssetHoldings.BalancesMean` | Asset.h:648-666 | both balances told by keys, -1 exactly for a missing record |
| `HoldingRuns.EndEpochKeepsOwned` | Asset.h:555-645 | the rebuild keeps the share count of every owner |
| `HoldingRuns.StepFlows` | Asset.h:63-645 | on a table whose managing contracts agree, each operation changes each holding and each ownership record by what its flow brings or takes, told by keys |
| `HoldingRuns.RunFlows` | Asset.h:63-645 | Main: over every run as replay makes them, each holding and each ownership record is the initial one plus everything that flowed to it minus everything that flowed from it |
| `Universe.Universe.Find` | Asset.h:366-441 | the shared lookup loop: found exactly when the record is in the table, and where |
| `Universe.Universe.FindIssuerIndex` | Asset.h:366-387 | the slot of the issuance with this issuer and name, or not found |
| `Universe.Universe.FindOwnershipIndex` | Asset.h:389-414 | the slot of the ownership record with this issuance, owner and managing contract, or not found |
| `Universe.Universe.FindPossessionIndex` | Asset.h:416-441 | the slot of the possession record with this ownership, possessor and managing contract, or not found |
| `Universe.Universe.GetAssetBalances` | Asset.h:648-666 | both balances through three lookups, -1 for a missing record |
| `Universe.Universe.IssueAsset` | Asset.h:63-134 | table, flags and return value of issueAsset, in place, equal the specification whose invariants are proved above |
| `Universe.Universe.MoveShares` | Asset.h:198-263 | the find-or-create probes, debits and credits, in place, in the order of the code |
| `Universe.Universe.TransferShareOwnershipAndPossession` | Asset.h:136-263 | in place: refusal, burn or move of all n shares (`AssetHoldings.TransferHands` says what that does to every holding), with the change flags it raises |
| `Universe.Universe.TransferShareManagementRights` | Asset.h:443-553 | in place: refusal or move to the new managing contracts, with the change flags it raises |
| `Universe.Universe.TransferByKeys` | Asset.h:266-364 | in place: three lookups by key, then the transfer; remaining balance or error code as returned (`AssetHoldings.TransferByKeyHands`) |
| `Universe.Universe.CarryRecord` | Asset.h:565-640 | one round of the rebuild on the second array |
| `Universe.Universe.AssetsEndEpoch` | Asset.h:555-645 | the whole rebuild, copied back, with every change flag raised |
| `Universe.Universe.GetUniverseDigest` | LoggingEventProcessor.cpp:82-123 | the digest array after the call, all flags clear, and the root as result |
| `ChangeFlags.ToShiftIsExact` | LoggingEventProcessor.cpp:88-99 | shift amounts below 64 and numbers below 64 correspond one to one |
| `ChangeFlags.LowerPairInBit` | LoggingEventProcessor.cpp:109-113 | clearing two neighbouring bits of a word clears those two and no other |
| `ChangeFlags.Raise` | LoggingEventProcessor.cpp:96-100 | the shift-and-or sets exactly one flag of the bitset |
| `ChangeFlags.TestPair` | LoggingEventProcessor.cpp:109-114 | the mask test tells whether one of two neighbouring flags is set |
| `ChangeFlags.LowerPair` | LoggingEventProcessor.cpp:109-114 | the mask clears exactly two neighbouring flags |
| `MerkleTree.PropagateLevel` | LoggingEventProcessor.cpp:107-116 | one level: parents of raised flags are re-hashed, and the flags of the next level replace those of this one in place |
| `MerkleTree.PropagateUp` | LoggingEventProcessor.cpp:103-120 | all levels: the digest array becomes the refreshed array and every flag is clear on exit |
| `MerkleTree.DirtyMeansFlaggedLeaf` | LoggingEventProcessor.cpp:105-119 | a node counts as changed exactly when some leaf below it was flagged |
| `MerkleTree.AboveIsInterval` | LoggingEventProcessor.cpp:105-119 | on each level, flag i stands for an interval of the leaves |
| `MerkleTree.RefreshRestores` | LoggingEventProcessor.cpp:103-120 | recomputing only along changed paths restores the hash equation at every node |
| `MerkleTree.FullPassIsDirty` | LoggingEventProcessor.cpp:94-101 | with all leaves flagged every node is recomputed, whatever was stored |
| `MerkleTree.TreeRoot` | LoggingEventProcessor.cpp:103-122 | the last entry of a hashed array is the Merkle root of its leaves |
| `MerkleTree.RootHalves` | LoggingEventProcessor.cpp:103-120 | the root is the hash of the root of the left half and that of the right half, in this order |
| `IncrementalDigest.DigestCallIsRoot` | LoggingEventProcessor.cpp:82-123 | the incremental call returns the root built from scratch |
| `IncrementalDigest.FullCallIsRoot` | LoggingEventProcessor.cpp:94-122 | a full call needs nothing from the stored digests |
| `IncrementalDigest.IdleCallKeeps` | LoggingEventProcessor.cpp:82-123 | calling again without changes leaves all digests and the root alone |
| `UniverseRuns.OperationFlags` | Asset.h:63-645 | every asset operation raises the flag of every slot that it changes |
| `UniverseRuns.IncrementalRootsAreExact` | LoggingEventProcessor.cpp:82-123 | Main: over every run of operations and digest calls on a well-formed table, each digest call returns the root from scratch |
| `UniverseRuns.FullPassStarts` | LoggingEventProcessor.cpp:427-436 | the first full pass establishes exactness from any stored digests |
| `SpectrumTable.LocateDecides` | Entity.h:84-117 | a probe finds a record exactly when the key is in the map that the table represents |
| `SpectrumTable.CanProbeWhen` | Entity.h:84-117 | a lookup ends exactly if some slot is unused or the key has a record |
| `SpectrumTable.PutUpdatesView` | Entity.h:36-65 | filling the unused slot at the end of a key's probe adds the key to the map |
| `SpectrumTable.ReplaceUpdatesView` | Entity.h:36-82 | replacing a record updates the map at its key only |
| `Spectrum.IncreaseView` | Entity.h:36-65 | a credit updates the map at one key |
| `Spectrum.IncreaseKeeps` | Entity.h:36-65 | a credit raises one balance and the supply by the amount, and nothing else |
| `Spectrum.IncreaseRecord` | Entity.h:36-65 | the records of all keys after a credit, field by field: incoming amount, counter modulo 2^32 and tick of one key, and nothing of any other |
| `Spectrum.DecreaseKeeps` | Entity.h:68-82 | a debit lowers one balance and the supply by the amount, exactly when it is covered |
| `Spectrum.DecreaseRecord` | Entity.h:68-82 | the records of all keys after a debit, field by field: outgoing amount, counter modulo 2^32 and tick of one key if it is covered |
| `Spectrum.FitsIn` | Entity.h:119-145 | a table over some of the keys needs no more slots than the old one |
| `Spectrum.LacksOne` | Entity.h:119-145 | a table that lacks one of the keys has room, even if the old one is full |
| `Spectrum.ReorganizeRefines` | Entity.h:119-145 | Main: for every well-formed table, a full one included: the reorganised table maps exactly the keys with nonzero balance, each to the identical record, and is well formed |
| `SpectrumStore.SpectrumStore.SpectrumIndex` | Entity.h:84-117 | the slot of a key, or -1 exactly when the map has no such key |
| `SpectrumStore.SpectrumStore.IncreaseEnergy` | Entity.h:36-65 | in place: the specified credit, whose effect on the record is `Spectrum.IncreaseRecord` |
| `SpectrumStore.SpectrumStore.DecreaseEnergy` | Entity.h:68-82 | in place: the specified debit, whose effect on the record is `Spectrum.DecreaseRecord`, and whether it happened |
| `SpectrumStore.SpectrumStore.ReorganizeSpectrum` | Entity.h:119-145 | in place: the reorganised table |
| `SpectrumStore.SpectrumStore.ProcessQuTransfer` | LoggingEventProcessor.cpp:125-144 | in place: debit if possible, credit in any case |
| `SpectrumStore.SpectrumStore.ProcessQuBurn` | LoggingEventProcessor.cpp:177-183 | in place: debit if possible |
| `SpectrumStore.SpectrumStore.ProcessDistributeDividends` | LoggingEventProcessor.cpp:146-175 | in place: one debit of the total and all credits, or refusal |
| `SpectrumStore.SpectrumStore.ComputeSpectrumDigest` | LoggingEventProcessor.cpp:38-80 | leaves touched in the tick window are hashed again, then all levels; the root of the result |
| `QuReplay.TransferKeeps` | LoggingEventProcessor.cpp:125-144 | what a transfer does to balances and supply, covered or not |
| `QuReplay.StepQuKeeps` | LoggingEventProcessor.cpp:125-183 | an event whose debits succeed changes the supply by what it mints and burns |
| `QuReplay.RunAccounts` | LoggingEventProcessor.cpp:125-183 | Main: over every run balances stay non-negative, and if all debits succeed the supply is the initial one plus minted minus burned |
| `QuReplay.RunEndsWithRoom` | LoggingEventProcessor.cpp:125-183 | every probe of a run ends if there are more unused slots than records that the run may create |
| `QuReplay.UncoveredTransferCreatesQu` | LoggingEventProcessor.cpp:132-143 | Main: a transfer between two keys conserves the supply exactly when the source can pay |
| `QuReplay.RefusedBatchChangesNothing` | LoggingEventProcessor.cpp:146-166 | a batch of several sources, or whose source has no record, changes nothing |
| `QuReplay.UncoveredDividendsCreateQu` | LoggingEventProcessor.cpp:146-175 | Main: apart from what it pays to the zero key, a batch of dividends conserves the supply exactly if it is refused or its source can pay the sum; otherwise it creates the sum |
| `QuReplay.DividendsEqualTransfers` | LoggingEventProcessor.cpp:146-175 | Main: a covered dividend batch ends with the balances of the single transfers in sequence, which need no more room than the batch |
| `Accounts.StepMoves` | LoggingEventProcessor.cpp:125-183 | an event makes exactly its debits and credits on the record of each key: a transfer its debit if covered and then its credit, a batch one debit of the sum and all credits |
| `Accounts.RunMoves` | LoggingEventProcessor.cpp:548-669 | Main: over every run of QU events, the record of each key is the initial one with the sums of its credits and debits added, their numbers counted modulo 2^32 and the ticks of the last ones; a key has a record exactly if it had one or was credited |
| `SpectrumRuns.EventInWindow` | LoggingEventProcessor.cpp:41-52 | an event changes only records that the tick window selects |
| `SpectrumRuns.BatchRootIsExact` | LoggingEventProcessor.cpp:38-80 | after one batch the windowed digest call gives the root from scratch |
| `SpectrumRuns.SpectrumRunIsExact` | LoggingEventProcessor.cpp:38-80 | Main: after every batch of every run the stored root is the root from scratch |
| `SpectrumRuns.RepeatedDigestIsIdle` | LoggingEventProcessor.cpp:671-690 | repeating the call while votes are refetched leaves the digests alone |
| `Replay.ReplayKeeps` | LoggingEventProcessor.cpp:548-669 | Main: every completed replay keeps both ledgers healthy; if all debits succeed the supply is accounted for |
| `Replay.ReplaySpectrum` | LoggingEventProcessor.cpp:548-669 | whatever happens to the assets, a completed replay acts on the spectrum as the run of its QU events; a dividend window without payments is none of them |
| `Replay.ApplyAtKeeps` | LoggingEventProcessor.cpp:548-669 | one turn of the replay loop keeps both ledgers healthy |
| `Replay.MatchedRightsIsOp` | LoggingEventProcessor.cpp:268-288 | a matched pair that is applied is the management-rights transfer of the three records found, to the contract index cut to 16 bits |
| `Replay.ApplyMatchedRightsKeeps` | LoggingEventProcessor.cpp:233-289 | a matched pair that is applied moves some shares and keeps the universe sound |
| `ReplayRoom.ReplayEnds` | LoggingEventProcessor.cpp:548-669 | Main: a whole log is replayed to its end or to an exit if its dividend windows are closed, there is room for the records that its events may create, and its rights changes name existing records |
| `ReplayMeaning.EventIs` | LoggingEventProcessor.cpp:554-640 | one turn of the loop on an event outside of windows does exactly what the event means; the second event of a pair that does not agree with the first stops the replay |
| `ReplayMeaning.RightsLookups` | LoggingEventProcessor.cpp:266-282 | the three lookups of a rights change find the holding of this owner, possessor and source contract exactly if there is one |
| `ReplayMeaning.WindowMeans` | LoggingEventProcessor.cpp:607-654 | a window of transfers is one batch with all their payments, any other window nothing |
| `ReplayMeaning.ReplayMeans` | LoggingEventProcessor.cpp:548-669 | Main: exactly when a replay completes: every window is closed, the events of each pair agree, the QU events end and the asset operations can be performed, all read off the log event by event; it then ends with both tables after performing them in order |
| `ReplayMeaning.LoopPerforms` | LoggingEventProcessor.cpp:548-669 | the QU events that the loop performs are those read off the log event by event |
| `ReplayMeaning.PlayIsRun` | LoggingEventProcessor.cpp:548-669 | the asset operations of a log are a run of the asset table, so all that holds over runs holds over replays |
| `ReplayMeaning.ReplayBooks` | LoggingEventProcessor.cpp:548-669 | Main: after a completed replay every entity record, every holding, every ownership record and every asset total is the initial one plus what the events of the log add to it |
| `Replayer.Replayer.ApplyQuEvent` | LoggingEventProcessor.cpp:125-183 | in place: the specified QU event |
| `Replayer.Replayer.ProcessIssueAsset` | LoggingEventProcessor.cpp:185-194 | in place: the specified issuance |
| `Replayer.Replayer.ProcessChangeOwnershipAndPossession` | LoggingEventProcessor.cpp:196-231 | in place: two matching events move the shares, a mismatch stops the process |
| `Replayer.Replayer.ProcessChangeManagingContract` | LoggingEventProcessor.cpp:233-289 | in place: three lookups and the rights transfer; failure stops the process |
| `Replayer.Replayer.CollectWindow` | LoggingEventProcessor.cpp:620-655 | the events of a dividend window, up to the next custom message |
| `Replayer.Replayer.ProcessEvent` | LoggingEventProcessor.cpp:548-669 | one turn of the loop, with the two pending halves of paired events; what it does is `ReplayMeaning.EventIs` |
| `Replayer.Replayer.ReplayEvents` | LoggingEventProcessor.cpp:548-669 | the whole loop equals the specified replay |
| `Replayer.Replayer.FullPass` | LoggingEventProcessor.cpp:427-436 | from any stored digests both trees become those of the tables |
| `Replayer.Replayer.VerifyBatch` | LoggingEventProcessor.cpp:548-690 | Main: replaying any batch and updating both digests gives the roots, from scratch, of the ledgers the replay specifies, and is ready for the next batch; healthy ledgers stay healthy if nothing negative is issued |
| `Field1271.FpAdd` | K12AndKeyUtil.h:1062-1066 | sum modulo 2^127-1 on [0, 2^127-1], no carry lost, output may alias inputs |
| `Field1271.FpSub` | K12AndKeyUtil.h:1068-1072 | difference modulo 2^127-1, no borrow lost, output may alias inputs |
| `Field1271.Mod1271` | K12AndKeyUtil.h:1055-1060 | the canonical representative |
| `Field1271.FpMul` | K12AndKeyUtil.h:1124-1138 | Main: product modulo 2^127-1, no carry lost, output may alias inputs |
| `Field1271.FpSqr` | K12AndKeyUtil.h:1140-1153 | square modulo 2^127-1, output may alias the input |
| `FieldExp.SameProduct` | K12AndKeyUtil.h:1155-1188 | multiplication respects equality in the field |
| `FieldExp.PowAdd` | K12AndKeyUtil.h:1155-1188 | powers multiply by adding exponents |
| `FieldExp.FpExp1251` | K12AndKeyUtil.h:1155-1188 | Main: the chain computes a^(2^125 - 1); the output may be the input |
| `Montgomery.Multiply` | K12AndKeyUtil.h:1279-1302 | the exact 512-bit product; none of the word sums wraps |
| `Montgomery.AddRow` | K12AndKeyUtil.h:1288-1301 | one row of the product, five words wide, without a lost carry |
| `Montgomery.LowProduct` | K12AndKeyUtil.h:1324-1334 | the low 256 bits of P * r' |
| `Montgomery.AddWide` | K12AndKeyUtil.h:1338-1339 | the eight-word sum and its carry |
| `Montgomery.ReduceOnce` | K12AndKeyUtil.h:1338-1341 | one conditional subtraction of the order |
| `Montgomery.Reduce` | K12AndKeyUtil.h:1324-1343 | (P + Q r) / 2^256 is exact, carries nothing out and is reduced below the order |
| `Montgomery.MontgomeryMultiply` | K12AndKeyUtil.h:1304-1343 | Main: mc < r and mc * 2^256 = ma * mb modulo r for all ma < 2^256 and mb < r, aliasing included |
| `Montgomery.CancelW` | K12AndKeyUtil.h:1304-1343 | 2^256 can be cancelled modulo the order |
| `Montgomery.ReduceScalar` | K12AndKeyUtil.h:1488-1489 | multiplying by Rprime and then by one gives k mod r for every 256-bit k |
| `Wnaf.Recode` | K12AndKeyUtil.h:1855-1898 | Main: for widths 2 to 8 and every 64-bit scalar: terminates, stays within 65 digits, digits sum to the scalar, are odd, small and sparse |
| `Wnaf.OddRestFits` | K12AndKeyUtil.h:1868-1892 | what is left after a digit fits above the digits written |
| `Wnaf.Unique` | K12AndKeyUtil.h:1855-1898 | Main: no other sparse digits in range have the same value |
| `Sponge.BlocksAreFold` | K12AndKeyUtil.h:328-453 | absorbing block by block, as section 2.2 of RFC 9861 defines it, is the fold over single bytes |
| `Sponge.TurboShakeIsFold` | K12AndKeyUtil.h:328-453 | TurboSHAKE128 is: absorb byte by byte, close, squeeze byte by byte |
| `Sponge.AbsorbConcat` | XKCP/KeccakSponge.inc:149-203 | absorbing two pieces is absorbing their concatenation |
| `TreeHash.MarkerAbsorbed` | K12AndKeyUtil.h:470-479 | after 8192 bytes one added byte and rounding the position up to a lane is absorbing the eight-byte marker |
| `TreeHash.ChainingValuesAppend` | K12AndKeyUtil.h:481-501 | the chaining values of one more chunk |
| `TreeHash.QueueFills` | XKCP/KangarooTwelve.c:184-197 | completing the queued chunk appends its chaining value |
| `TreeHash.TrunkedResult` | XKCP/KangarooTwelve.c:322-331 | with an empty queue the final node lacks only the encoded leaf count, as section 3.2 of RFC 9861 defines it |
| `TreeHash.QueuedResult` | XKCP/KangarooTwelve.c:308-331 | with a started queue its chaining value comes first |
| `KeccakState.RightEncode` | XKCP/KangarooTwelve.c:120-132 | the buffer receives length_encode of section 3.3 of RFC 9861, for every 64-bit value |
| `KeccakState.BigEndianAt` | XKCP/KangarooTwelve.c:127-129 | each encoded byte is the value shifted right |
| `KangarooTwelve.SpongeBuffer.AddAligned` | K12AndKeyUtil.h:381-417 | lanes by eights, fours, twos and one plus odd bytes add exactly the piece |
| `KangarooTwelve.SpongeBuffer.AddUnaligned` | K12AndKeyUtil.h:418-442 | adding from inside a lane adds exactly the piece at the current position |
| `KangarooTwelve.SpongeBuffer.AbsorbFullBlocks` | K12AndKeyUtil.h:333-367 | the fast path for full blocks |
| `KangarooTwelve.SpongeBuffer.AbsorbAll` | K12AndKeyUtil.h:328-453 | KangarooTwelve_F_Absorb equals the fold over bytes from any position |
| `KangarooTwelve.AbsorbChunks` | K12AndKeyUtil.h:481-501 | all further chunks of the input |
| `KangarooTwelve.AddEncodedLength` | K12AndKeyUtil.h:503-526 | the zero byte that encodes the empty customization, completing a chunk or starting one |
| `KangarooTwelve.EndTree` | K12AndKeyUtil.h:563-587 | last chaining value, leaf count and domain byte |
| `KangarooTwelve.Hash` | K12AndKeyUtil.h:455-591 | Main: equals KT128 of RFC 9861 with empty customization for every input below 2^32 bytes and every output up to 168 bytes |
| `TurboShakeSponge.SqueezeAgain` | XKCP/KeccakSponge.inc:249-294 | squeezing in two calls gives what one call gives |
| `TurboShakeSponge.Instance.AbsorbAll` | XKCP/KeccakSponge.inc:149-203 | the fold over bytes, or refusal once squeezing |
| `TurboShakeSponge.Instance.AbsorbDomainSeparationByte` | XKCP/KeccakSponge.inc:207-245 | domain byte and padding, with the extra permutation for a byte that fills the block |
| `TurboShakeSponge.Instance.Squeeze` | XKCP/KeccakSponge.inc:249-294 | the next bytes of the output, block by block |
| `XkcpKangarooTwelve.ProcessLeaves` | XKCP/KeccakP-1600-times4-AVX2.c:1436-1466 | the four-way leaf hashing gives the four chaining values |
| `XkcpKangarooTwelve.FourChunksAbsorbed` | XKCP/KangarooTwelve.c:98-107 | four whole chunks at once are four chunks one by one |
| `XkcpKangarooTwelve.Instance.Update` | XKCP/KangarooTwelve.c:146-283 | what is held afterwards is decided by the whole message absorbed so far, for any split of the input |
| `XkcpKangarooTwelve.SplitsAgree` | XKCP/KangarooTwelve.c:146-283 | two instances that absorbed one message in different pieces hold the same nodes and counters |
| `XkcpKangarooTwelve.Instance.Finish` | XKCP/KangarooTwelve.c:285-338 | equals KT128 of the absorbed message and any customization, for any output length; or leaves the sponge ready to squeeze it |
| `XkcpKangarooTwelve.Hash` | XKCP/KangarooTwelve.c:347-367 | KT128 for every message and customization; an empty output is an error |
| `XkcpKangarooTwelve.Compare` | tests/test_xkcp.cpp:36-49 | Main: both implementations give the same digest, however the input is split for the incremental one |
| `Identity.GetIdentity` | K12AndKeyUtil.h:2390-2440 | the 60 letters of a key in either case |
| `Identity.GetPublicKey` | K12AndKeyUtil.h:2448-2465 | the key a text decodes to in 64-bit arithmetic, or nothing |
| `Identity.CheckSumIdentity` | K12AndKeyUtil.h:2467-2497 | true exactly for texts that decode and carry the checksum of what they decode to |
| `Identity.EncodeDecode` | K12AndKeyUtil.h:2390-2497 | Main: decoding the text of a key gives the key back, and its checksum is accepted |
| `Identity.EncodeInjective` | K12AndKeyUtil.h:2390-2440 | different keys have different texts, in either case |
| `Identity.LowerCaseRejected` | K12AndKeyUtil.h:2442-2456 | a lower-case text never decodes |
| `Identity.DecodeEncode` | K12AndKeyUtil.h:2448-2497 | Main: an accepted text is the text of its key exactly when no group of letters goes beyond 64 bits |
| `Identity.SecondText` | K12AndKeyUtil.h:2448-2497 | a concrete accepted text of the zero key that is not its own text |
| `Identity.LetterIsDigit` | K12AndKeyUtil.h:2395-2403 | letter j of a group stands for word / 26^j mod 26 |
| `Identity.ChecksumLetters` | K12AndKeyUtil.h:2404-2411 | the last four letters stand, least significant first, for the low 18 bits of the hash |
| `Identity.AcceptedMeans` | K12AndKeyUtil.h:2404-2411 | a text passes exactly if it decodes and its last four letters stand for the low 18 bits of the hash of what it decodes to |
| `PacketQueue.RunIsFifo` | SpecialBufferStructs.h:50-186 | Main: in every interleaving of packets of at least three bytes, the packets handed out and those left in the ring are the initial ones and the accepted ones, whole and in order |
| `PacketQueue.DeclaredPacket` | SpecialBufferStructs.h:54-57 | a queued packet carries its own size, or is one of the two packets that declare one or two bytes |
| `PacketQueue.WholePacketsReady` | SpecialBufferStructs.h:108-111 | with sizes of at least a header a consumer waits only while nothing is queued |
| `PacketQueue.SizeReadBack` | structs.h:15-24 | a size is read back from the header as it was set, modulo 2^24, with 2^31 - 1 in place of zero |
| `PacketQueue.SizeSetBack` | structs.h:15-24 | the three size bytes of a header are those that its size sets, unless all are zero |
| `PacketQueue.ReadyAtHeader` | SpecialBufferStructs.h:108-124 | whole packets are handed out exactly from a header's worth of queued bytes on, so a shorter packet can wait for its successor |
| `PacketQueue.OldestLeavesWhole` | SpecialBufferStructs.h:113-141 | Main: for every queue: a first packet that holds its size leaves whole; one of one or two bytes does exactly if the bytes after it, read as the rest of its size, are zero |
| `RingBuffer.MutexRoundBuffer.EnqueuePacket` | SpecialBufferStructs.h:50-90 | for every declared size: rejected, blocked or appended byte for byte, across the wrap; counters and cursors describe exactly the queued bytes |
| `RingBuffer.MutexRoundBuffer.TryGetPacket` | SpecialBufferStructs.h:145-186 | hands out the bytes that the header at the head declares once a header and all of them are queued, else changes nothing |
| `RingBuffer.MutexRoundBuffer.PeekData` | SpecialBufferStructs.h:207-215 | bytes from the head on, across the wrap |
| `TickVotes.SupportsAddUp` | IOProcessor.cpp:53-66 | votes for different digests are votes of different computors |
| `TickVotes.AtMostOneReaches` | IOProcessor.cpp:68-86 | at most one digest reaches its threshold |
| `TickVotes.ThresholdsAreTight` | IOProcessor.cpp:72-79 | one vote less for a tick with data and two digests could pass together |
| `TickVotes.SupportIsVoters` | IOProcessor.cpp:60-87 | the support of a digest is the number of computors whose vote is of the epoch and for it |
| `TickVotes.QuorumIsStable` | database/db.cpp:47-58 | Main: whatever votes still arrive, the digest that reached its threshold stays the only one |
| `TickVotes.ClassificationAgrees` | LoggingEventProcessor.cpp:700-725 | empty or non-empty is read off the same way from the votes in memory and from the 676 records on disk, blanks included |
| `TickVotes.ClassifyMeans` | LoggingEventProcessor.cpp:700-725 | each of the three answers, missing votes included, exactly by the numbers of empty and other votes |
| `TickStore.HotStore.InsertTickVote` | database/db.cpp:47-58 | a computor's first vote for a tick is kept, later ones are ignored; a vote with another computor index is in none of the 676 slots |
| `TickStore.HotStore.GetTickVotes` | database/db.cpp:744-787 | the stored votes in the order of the computors, through batches of 128 keys |
| `Quorum.RefreshVotes` | IOProcessor.cpp:25-35 | the cache becomes the stored votes; the count is that of the epoch |
| `Quorum.FindConsensus` | IOProcessor.cpp:68-86 | the digest found does not depend on the order of the map |
| `Quorum.VerifyQuorum` | IOProcessor.cpp:23-122 | Main: true exactly if some digest has 226 votes of the epoch when it is zero, or 451 otherwise and then the judged tick data is of this tick and epoch, hashes to it and names only stored transactions; and the votes and tick data that the call leaves cached and stored |
| `Quorum.CallAnswers` | IOProcessor.cpp:23-122 | the verdict on every set of votes and every store, decided or not, by the numbers of votes and the tick data alone |
| `Quorum.CallLeaves` | IOProcessor.cpp:89-122 | which tick data a call leaves cached and stored |
| `Quorum.FewVotesDecideNothing` | IOProcessor.cpp:36-38 | the early exit never hides a quorum |
| `Quorum.DecisionIsStable` | IOProcessor.cpp:68-86 | a decided tick stays decided for the same digest |
| `Quorum.LaterReadingAgrees` | LoggingEventProcessor.cpp:700-725 | after further votes the verifier reads the tick as it was decided, from memory or from disk |
| `Quorum.ThreadCacheFits` | IOProcessor.cpp:23-36 | Main: from the zeroed cache on, the cached votes are what each verifying call of the thread requires, over all ticks and whatever votes arrive between the calls |
| `Quorum.WrongCacheSticks` | IOProcessor.cpp:90-108 | with the wrong tick data cached, a decided tick is refused by every later call, whatever votes, tick data and transactions still arrive |
| `Quorum.RightDataVerifies` | IOProcessor.cpp:90-122 | with the right tick data stored and its transactions known, a decided tick is verified exactly if the wrong data is not cached |
| `Quorum.RefusedIffMismatched` | IOProcessor.cpp:90-108 | Main: after a call every later call refuses the tick, whatever arrives, exactly if the call took the branch that deletes mismatched tick data |
| `Quorum.ClassifyVotes` | LoggingEventProcessor.cpp:700-725 | the counting loop: empty from 226 empty votes on, else with data from 451 other votes on, else votes are missing |
| `Tiering.ListedOnDisk` | database/db.cpp:1265-1277 | the votes read back from a record are the votes it was made from |
| `Tiering.SafeIffMovable` | database/garbageCleaner.cpp:26-75 | Main: readers never see a change, whatever the crashes, exactly when there is tick data with at most 225 votes against it, or nothing at all |
| `Tiering.QuorumTickIsMovable` | database/garbageCleaner.cpp:48-57 | a tick with data that reached its quorum is in that case |
| `Tiering.VotesSafeIff` | database/garbageCleaner.cpp:26-114 | the votes alone read the same, whatever the crashes, exactly if there is tick data, or more than 225 empty votes, or no vote |
| `Tiering.LateVoteHides` | database/db.cpp:1265-1277 | a vote that arrives after the raw votes are gone hides all votes on disk |
| `Tiering.VoteUnseenIff` | database/db.cpp:47-58 | an arriving vote leaves the votes that are read unchanged exactly if its computor has a vote in the hot store, or the hot store has none and the record lists just this one |
| `Tiering.DataUnseenIff` | database/db.cpp:60-71 | arriving tick data leaves the data that is read unchanged exactly if it is the data in the hot store, or, with none there, in the record |
| `Tiering.VoteDuringMove` | database/garbageCleaner.cpp:26-114 | a vote that arrives while its tick is moved is read with the others if it is in time for the record, lost before the deletion, and read alone after it |
| `Tiering.DataDuringMove` | database/garbageCleaner.cpp:26-114 | tick data that arrives while its tick is moved is read afterwards, except between the record and the deletion, when it is lost |
| `Cleaner.RoundOnTick` | database/garbageCleaner.cpp:94-114 | what any prefix of a round has done to one tick |
| `Cleaner.CrashSafe` | database/garbageCleaner.cpp:173-188 | a movable tick reads the same after any number of starts and crashes |
| `Cleaner.CrashSafeIffMovable` | database/garbageCleaner.cpp:173-188 | Main: crash safety holds exactly for the movable ticks ahead of the cursor |
| `Cleaner.TieredStore.CompressTick` | database/garbageCleaner.cpp:26-75 | in place: the record of a tick, or nothing for a tick that cannot be recorded |
| `Cleaner.TieredStore.CleanRawTick` | database/garbageCleaner.cpp:94-114 | in place: data and votes of a range are deleted, tick by tick |
| `Cleaner.TieredStore.CleanRound` | database/garbageCleaner.cpp:173-188 | one whole round equals the complete sequence of its steps |
| `TopicIndex.TopicKeyInjective` | QubicIndexer.cpp:252-272 | contract, type and topics can be read back from an index key |
| `TopicIndex.TopicKeyIsLonger` | QubicIndexer.cpp:239-254 | a topic key is never the key of a contract or of a type |
| `TopicSearch.PartsLineUp` | database/db.cpp:1131-1140 | any query text, even one with colons, lines up with the parts of a key |
| `TopicSearch.KeyMeansMatch` | QubicIndexer.cpp:236-273 | for every query an event is entered under the key of the search exactly when it matches, except for the two searches that have no key |
| `TopicSearch.MatchesByKey` | database/db.cpp:1112-1114 | between keys, matching is equality or wildcard, by injectivity of the identity encoding |
| `TopicSearch.EntryMeansLog` | QubicIndexer.cpp:94-274 | Main: for each kind of log, which of its fields become contract, type and topics: the entry matches a search exactly if the log itself does |
| `TopicSearch.SearchIsScan` | database/db.cpp:1089-1163 | Main: every search returns exactly the ticks in range, in order, that a linear scan of all logs finds, matching the fields of each kind of log; only the two searches without a key find nothing |
| `TopicSearch.TypeSearchMeansType` | database/db.cpp:1116-1130 | without a topic, a search by type finds exactly the events of that type, except plain transfers |
| `TopicSearch.ContractSearchMeansContract` | database/db.cpp:1116-1130 | without topic and type, a search finds exactly the events of its contract if that is not contract 0, and nothing if it is |
| `TopicSearch.Indexer.BuildKey` | QubicIndexer.cpp:254-270 | the key for one choice of topics and whether it names any |
| `TopicSearch.Indexer.IndexEntry` | QubicIndexer.cpp:236-273 | one event is entered under exactly its keys |
| `TopicSearch.Indexer.IndexTick` | QubicIndexer.cpp:94-274 | after a tick the index reflects exactly the events of all indexed ticks; which fields of a log they are made of is `TopicSearch.EntryMeansLog` |
| `Pipeline.StepKeepsOrder` | LoggingEventProcessor.cpp:887-921 | each read or write of a shared cursor keeps the order and what the threads hold |
| `Pipeline.FreshRunInOrder` | IOProcessor.cpp:243-260 | Main: from a fresh start, in every interleaving, indexing < verifying <= log fetching <= fetching + 1, and the cleaner is at most at max(initial, indexing - 5) |
| `Pipeline.FinishedBatchHasQuorum` | LoggingEventProcessor.cpp:673-677 | when a batch of a fresh run is finished, the run has verified the quorum of its first tick, and of every other one except possibly the last |
| `Pipeline.EveryTickOnce` | QubicIndexer.cpp:290-321 | Main: no tick is verified or indexed twice, none is skipped, none is indexed before it is verified |
| `Pipeline.BatchTicks` | LoggingEventProcessor.cpp:442-447 | in a fresh run a batch starts with all ticks whose logs are there, at most 65, and only gets shorter |
| `Pipeline.GoalTicks` | database/garbageCleaner.cpp:156-157 | in a fresh run, which ticks the cleaner may delete: five behind the indexing tick and beyond the number to keep, all of them indexed |
| `Pipeline.TurnedAwayWhen` | DataProcessors.cpp:28-42 | messages for a tick are turned away exactly from the moment that the next tick is verified |
| `Arrivals.CleanedTicksAreClosed` | DataProcessors.cpp:27-34 | at the moment of the comparison, votes and tick data for a cleaned tick are turned away |
| `Arrivals.LateIffDroppedMeanwhile` | DataProcessors.cpp:21-75 | Main: in every run, an admitted message is stored on a cleaned tick exactly if the cleaner deleted its tick between the comparison and the insertion |
| `Arrivals.LateRunIsLate` | DataProcessors.cpp:32-42 | the run that stores a message on its cleaned tick, with the verifying tick only six ticks ahead |
| `Arrivals.LateIffAhead` | DataProcessors.cpp:21-75 | from a fresh start some run stores a message on its cleaned tick exactly if its tick is ahead of the start |
| `Arrivals.FiveIsExact` | DataProcessors.cpp:32-42 | Main: messages stored while the verifying tick is at most five ticks ahead find their tick untouched in every run, and with more slack they do not |

## Left out

- Universe.Universe.IssueAsset: does not model 64-bit overflow of share counts, because the total supply is assumed to fit.
- HoldingRuns.RunFlows: for tables on which the managing contracts of owner and possessor agree, and runs that change both together, as replay does (AssetRuns.ReplayKeepsManagers); what a transfer by keys may do on other tables is AssetHoldings.TransferByKeyHands.
- HoldingRuns.StepFlows: for such tables too.
- SpectrumStore.SpectrumStore.IncreaseEnergy: does not model 64-bit overflow of balances, for the same reason.
- SpectrumRuns.SpectrumRunIsExact: requires that transfers, burns and batches of dividends carry ticks of the batch; the query for the logs of those ticks refuses others (database/db.cpp:651-656).
- Replayer.Replayer.VerifyBatch: has the same requirement; a dividend window without payments carries no tick and is not concerned.
- Universe.Universe.GetUniverseDigest: locks are not modelled; each operation runs as one critical section.
- PacketQueue.RunIsFifo: declared sizes of at least three bytes; what smaller ones do is PacketQueue.OldestLeavesWhole.
- RingBuffer.MutexRoundBuffer.TryGetPacket: GetPacket reads the header before its second wait. For packets of at least three bytes that wait never blocks (PacketQueue.ReadyAtHeader), so GetPacket is this section after its first wait; that several consumers wait on misread sizes of shorter packets is not modelled, nor is fairness.
- XkcpKangarooTwelve.Instance.Update: only security level 128, which is the one in use.
- XkcpKangarooTwelve.Instance.Finish: the same.
- KangarooTwelve.Hash: output beyond one block of 168 bytes is outside what the code provides.
- Wnaf.Recode: widths 2 to 8; the code is used with 4 and 8.
- Quorum.VerifyQuorum: signature checks of votes and tick data happen before they are stored and are not modelled.
- Tiering.SafeIffMovable: the ticks are raw at the start, that is, no record on disk yet and every stored vote of some epoch.
- Cleaner.TieredStore.CompressTick: the copy of the tick's log ranges is not modelled.
- Cleaner.TieredStore.CleanRound: copying of log ranges, transactions and logs, and the mode that keeps only the last ticks, are not modelled.
- TopicSearch.SearchIsScan: the stores' sorted sets are sets of ticks; indexing of transactions by hash is not modelled.
- Arrivals.LateIffDroppedMeanwhile: crashes and restarts of the cleaner are in Cleaner, not in the runs of the threads.
- Pipeline.FreshRunInOrder: starts when every thread has set its cursor, and ends before the shutdown at the end of an epoch.
- Replay.ReplayKeeps: DUST_BURNING is not implemented in the code and is an ignored event here; self-checks of single log events are not modelled.
- Keccak-p rounds, SIMD code other than the leaf hashing, zstd, Redis and Kvrocks themselves: parameters, identity and maps.
- FourQ point arithmetic, scalar decomposition, precomputed tables, SchnorrQ signatures: curve theory on constants.
- Sockets, peers, REST and WebSocket handlers, configuration, logging, profiling, snapshot files: plumbing.
- The salted comparison of votes with computed digests: a count of matching hashes.
