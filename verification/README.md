# Verified models of the Eiyaro node

A Dafny 4.11 model of the parts of the node whose correctness rests on state that must stay
consistent: the UTXO index, the address codec, the orphan pool, the consensus lock, the staging
consensus, the error channel of a connection, the propagation queue of transaction IDs, compact
difficulty targets and the wallet's sweep splitter. `dafny verify dfyconfig.toml` checks everything.

## Modules

- `UtxoModel`, `UtxoStore`, `UtxoIndex`: the index of the virtual UTXO set by script. The store stages a
  difference in memory and commits it in one atomic batch with per-script counts, the circulating supply
  and the synced marker. `Reset` rebuilds it write by write from pages of the consensus. `UtxoIndex.Run`
  puts changes, rebuilds, failures and crashes at any write together.
- `BitRegrouping`, `Checksum`, `Bech32`, `Address`: bit regrouping, the 40-bit checksum over GF(2^5), and
  the text form of the five address kinds. The generators are those of the "Checksum" section of the
  Bitcoin Cash CashAddr specification, the alphabet is that of BIP 173, section "Bech32".
- `OrphanPool`: the worklist that hands orphans to consensus and the search for missing roots. Other flows
  may insert blocks into consensus between any two of its questions.
- `ConsensusLock`: `ValidateAndInsertBlock` and `ResolveVirtual` as a step system of any number of threads.
- `StagingDomain`: the active and the inactive prefix, with failures and crashes at any write, and with
  writes of an instance while its prefix is being deleted.
- `StagingRuns`: whole runs of these operations, and a plain node without prefixes that they refine.
- `ErrorChannel`: the send-once error channel as a step system, with the 32-bit counter wrapping.
- `Propagation`, `Difficulty`, `Sweep`: the queue of transaction IDs, the compact number format, and the
  greedy packing of UTXOs.
- `Basics`: an option type, facts about sets and sequences, and unsigned 64-bit arithmetic.
- `Disk`: a persistent store with atomic single writes that remembers every state it was in; which attempts
  at a write fail is given with it.

What comes from outside is a parameter or a nondeterministic choice: failing writes, the consensus
behind its interface, the clock, broadcast failures, the order in which Go visits a map, random eviction,
and the interleaving of goroutines. The UTXO modules assume what consensus guarantees: a list of virtual
parents determines its UTXO set, an outpoint names one output with one script and one amount, a difference
removes outpoints that are present and adds outpoints that are absent after the removal, and a UTXO set has
fewer than 2^63 entries.

## Findings

These are properties one might expect that the code does not have, with the exact condition under which
each holds and, where it is a matter of inputs, one for which it fails.

- An outpoint that a virtual change removes and adds again keeps its old entry in the index, so its DAA
  score goes stale. Entries are exact if and only if no outpoint is on both sides with another entry
  (`UtxoIndex.EntriesExactIff`, `UtxoIndex.StaleScore`). Scripts, outpoints and amounts are always exact.
- `Reset` does not discard what a failed commit left staged. The rebuilt index and the staged entries
  together hold the virtual set if and only if nothing is staged (`UtxoIndex.ResetTracksIff`,
  `UtxoIndex.StagedSurvivesReset`). The node panics on a failed update, so this does not arise in its runs.
- `Decode` ignores the padding bits, so several strings decode to one address. Printing gives the string
  back if and only if its padding is canonical (`Bech32.ReencodeIffCanonical`, `Bech32.PaddingIgnored`).
- `BigToCompact` loses the top bits of the exponent. The rounding bound holds if and only if the number is
  below 2^2039 (`Difficulty.RoundsIff`, `Difficulty.TooLarge`).
- A commit can replace the active consensus by one that is not the consensus that was staged, and succeed in
  it, because it looks at the markers and never at the staging instance. It shows what was written through
  the staging instance if and only if that instance is ready: it exists, the inactive marker names its prefix,
  and the prefix holds what it wrote (`StagingDomain.Domain.CommitStagingConsensus`). A staging consensus
  begun over a tidy database is ready, writing through it keeps it so, and a deletion without other writes
  keeps it so if and only if it deletes neither a record nor the marker
  (`StagingDomain.Domain.InitStagingConsensus`, `StagingDomain.Domain.WriteStaging`,
  `StagingDomain.Domain.DeleteStagingConsensus`). Three runs commit what is not ready. The factory fails after
  the marker was set and a commit follows, which leaves an empty consensus without an instance
  (`StagingRuns.CommitWithoutInstance`). A commit fails at its last marker and is tried again, which swaps
  back to the emptied consensus and deletes the committed one (`StagingRuns.RetriedCommit`). A deletion of the
  staging consensus fails after its first record and a commit follows (`StagingRuns.CommitAfterCutDeletion`).
  If nothing but a restart follows an operation that stopped half way, and no instance writes in the middle of
  one, the node is a plain node: every commit shows what was staged and every crash shows what was active
  (`StagingRuns.Run`).
- A commit or deletion of the staging consensus can leave data that no marker names, and a restart keeps it.
  It happens in two ways. After a commit that failed behind its marker write the instance in memory writes
  under a prefix without a marker: the instance is safe if and only if the call succeeded or the inactive
  marker is still there (`StagingDomain.Domain.CommitStagingConsensus`, and likewise
  `StagingDomain.Domain.DeleteStagingConsensus`), and `StagingRuns.StrayAfterFailedCommit` goes through such
  a run. And the old instance may write while a commit that fails nowhere deletes its prefix: the result is
  tidy if and only if every record it writes is still waiting for its turn in the listing that the deletion
  goes through (`StagingDomain.DeleteInactivePrefix`, `StagingRuns.StrayDuringCommit`). A run stays tidy if no
  commit meets a fault behind its swap, no compaction of a deletion fails, and no instance writes in the
  middle of either (`StagingRuns.Run`).
- The sweep splitter does not sweep every UTXO. It does if and only if all of them fit in one transaction, at
  every length on the way (`Sweep.AllSweptIff`). A UTXO that breaks a fitting run is skipped
  (`Sweep.SplitSkips`) and is in no transaction (`Sweep.SkippedInNone`).
- At most one error is sent per connection if and only if there are at most 2^32 failures
  (`ErrorChannel.SendsExactly`).

Where comments and code disagree the model follows the code: the comment on
`EnqueueTransactionIDsForPropagation` speaks of a single message and the code cuts the queue into several;
the comment on `HandleError` lets every unknown error panic and the code ignores missing database records.

## Model

| member | source | states |
|---|---|---|
| UtxoModel.BalancesAddUp | domain/utxoindex/store.go:632-657 | the balances of all scripts add up to the total of the index |
| UtxoStore.DeleteEntries | domain/utxoindex/store.go:266-285 | deletes every staged entry in any order and adds up the amounts in 64 bits |
| UtxoStore.PutEntries | domain/utxoindex/store.go:287-310 | writes every staged entry in any order and adds up the amounts in 64 bits |
| UtxoStore.ComputeDeltas | domain/utxoindex/store.go:264-291 | a script's delta is its staged additions minus its staged removals |
| UtxoStore.DeltaMeans | domain/utxoindex/store.go:836-881 | a count record becomes its sum with the delta, deleted at zero; an error if and only if the old count or the sum is negative or has more than 63 bits |
| UtxoStore.ApplyDeltas | domain/utxoindex/store.go:836-881 | succeeds if and only if no delta meets an error, and then every record is its old count plus its delta, deleted at zero |
| UtxoStore.CountsStayExact | domain/utxoindex/store.go:836-881 | for entries that fit the index the "became negative" and overflow errors cannot occur, and exact counts stay exact |
| UtxoStore.SupplyStaysExact | domain/utxoindex/store.go:766-790 | the updated supply is the total of the new index, the 64-bit wrap-around being harmless |
| UtxoStore.CommitMeetsNoError | domain/utxoindex/store.go:254-340 | fitting entries meet neither a count error nor a missing supply record |
| UtxoStore.CommitKeepsTables | domain/utxoindex/store.go:254-340 | a commit of fitting entries keeps the count records and the supply exact |
| UtxoStore.Store.Add | domain/utxoindex/store.go:167-200 | cancels a staged removal, refuses a second addition, stages anything else |
| UtxoStore.Store.Remove | domain/utxoindex/store.go:202-237 | cancels a staged addition, refuses a second removal, stages anything else |
| UtxoStore.Store.Discard | domain/utxoindex/store.go:243-252 | nothing is staged afterwards |
| UtxoStore.Store.Commit | domain/utxoindex/store.go:254-340 | one durable state with entries, counts, supply and marker together, or no change and the stage kept; which error occurs, and that there is none if and only if the entries fit and the write does not fail |
| UtxoStore.Store.DeleteAll | domain/utxoindex/store.go:676-732 | empties the tables from any crash-safe state, unless one of its writes fails, and no write on the way leaves a wrong synced marker |
| UtxoStore.Store.InitializeSupply | domain/utxoindex/store.go:734-764 | the supply record holds the wrapped total of the stored entries, unless the write fails |
| UtxoStore.TallyPairs | domain/utxoindex/store.go:348-351 | counting pair by pair gives every script its number of pairs |
| UtxoStore.Store.PutPage | domain/utxoindex/store.go:353-397 | the parallel puts of a page, in any order and with any failures: success if and only if none fails, and then all entries and their sum; no synced marker ever |
| UtxoStore.Store.WriteDeltas | domain/utxoindex/store.go:836-881 | the deltas written record by record, each write leaving a crash-safe state; success if and only if no delta meets an error and no write fails |
| UtxoStore.Store.AddPage | domain/utxoindex/store.go:342-411 | entries, counts, marker of the counts and supply of a page, write by write, each state crash-safe; success if and only if the entries fit and no write fails |
| UtxoStore.Store.MarkSynced | domain/utxoindex/store.go:413-420 | the synced marker goes on disk only with tables that describe its set; success if and only if no write fails |
| UtxoStore.Store.UTXOs | domain/utxoindex/store.go:554-620 | the bucket in key order without omissions, up to the limit; an error if and only if something is staged |
| UtxoStore.Store.HasUTXOs | domain/utxoindex/store.go:623-629 | with exact counts, true if and only if the script has an entry |
| UtxoStore.Store.GetBalance | domain/utxoindex/store.go:632-657 | the wrapped sum of the script's amounts |
| UtxoStore.Store.GetSupply | domain/utxoindex/store.go:818-830 | with an exact record, the wrapped sum of the balances of all scripts; zero without a record |
| UtxoIndex.VirtualUTXOs | domain/consensus/datastructures/consensusstatestore/utxo.go:156-192 | a page holds the next outpoints strictly after the given one, all of them or as many as the limit allows |
| UtxoIndex.GetVirtualUTXOs | domain/consensus/consensus.go:729-753 | a page of the expected parents' set, or an error once the parents changed |
| UtxoIndex.PageMore | domain/utxoindex/utxoindex.go:175-193 | pages never overlap, a short page completes the set, a full one makes progress |
| UtxoIndex.PageStaysExact | domain/utxoindex/store.go:342-411 | exact counts and supply stay exact when a page is added |
| UtxoIndex.RemoveTracks | domain/utxoindex/store.go:202-237 | removing an outpoint of the tracked set meets no error, and stage and index track the smaller set |
| UtxoIndex.AddTracks | domain/utxoindex/store.go:167-200 | adding an outpoint outside the tracked set meets no error, and stage and index track the larger set |
| UtxoIndex.StagedIsDifference | domain/utxoindex/store.go:457-475 | what is staged is exactly what the tracked set and the stored index differ by |
| UtxoIndex.CommitRefreshes | domain/utxoindex/store.go:254-340 | a commit leaves the slots of the new set, stored ones with their old entry and new ones with the new entry |
| UtxoIndex.RefreshedDescribes | domain/utxoindex/store.go:254-340 | the committed index has exactly the scripts, outpoints and amounts of the new set |
| UtxoIndex.EntriesExactIff | domain/utxoindex/store.go:167-237 | an index exact in every field stays so if and only if no outpoint is on both sides with another entry |
| UtxoIndex.StaleScore | domain/utxoindex/store.go:167-237 | an outpoint removed and added again keeps its old DAA score |
| UtxoIndex.ResetTracksIff | domain/utxoindex/utxoindex.go:154-203 | a rebuilt index together with the stage holds the set if and only if nothing is staged |
| UtxoIndex.StagedSurvivesReset | domain/utxoindex/utxoindex.go:154-203 | an addition left staged by a failed commit is staged on top of the rebuilt index |
| UtxoIndex.CommitStaysSound | domain/utxoindex/utxoindex.go:223-256 | a commit of a tracked difference leaves exact tables of the new set and only crash-safe states |
| UtxoIndex.UtxoIndex.RemoveUTXOs | domain/utxoindex/utxoindex.go:277-294 | stages the removals of a valid difference in any order, never with an error |
| UtxoIndex.UtxoIndex.AddUTXOs | domain/utxoindex/utxoindex.go:258-275 | stages the additions of a valid difference in any order, never with an error |
| UtxoIndex.UtxoIndex.CommitStaged | domain/utxoindex/utxoindex.go:241-255 | reports exactly the entries that appear and disappear, and fails if and only if the one write fails |
| UtxoIndex.UtxoIndex.Update | domain/utxoindex/utxoindex.go:223-256 | for every valid difference, also after failed commits: exact tables of the new set, exact report, crash safety; an error if and only if the one write fails |
| UtxoIndex.UtxoIndex.BuildPages | domain/utxoindex/utxoindex.go:175-193 | the paging loop ends; it builds the whole set if and only if no write fails and the virtual parents are the same at all |set| / 1000 + 1 requests, and otherwise leaves no synced marker on disk |
| UtxoIndex.UtxoIndex.AddNextPage | domain/utxoindex/utxoindex.go:175-193 | one round: an error if and only if the parents changed or a write failed, and otherwise exact tables of what is read so far |
| UtxoIndex.UtxoIndex.Reset | domain/utxoindex/utxoindex.go:154-203 | from any crash-safe state: the exact index of the virtual set, if and only if no write fails and the virtual parents are the same at all requests; every durable state crash-safe |
| UtxoIndex.New | domain/utxoindex/utxoindex.go:120-151 | keeps an index of the current virtual without a write and rebuilds any other: exact tables of the current virtual set, unless a write of the rebuild fails or the virtual parents change on the way |
| UtxoIndex.HandleChange | domain/utxoindex/utxoindex.go:222-256 | a valid change moves an exact index to the new virtual, and stops the node with a crash-safe disk if and only if the write fails |
| UtxoIndex.Run | domain/utxoindex/utxoindex.go:120-256 | over any run of changes, rebuilds, failures and crashes at any write: a running node has an exact index, it is the index of the virtual that the last valid change or rebuild brought, and the node is down only if a write failed or the virtual changed during a rebuild |
| UtxoIndex.ReliableRun | domain/utxoindex/utxoindex.go:120-256 | if no write fails and no rebuild sees the virtual change, a started node stays up, at the virtual that every event brings |
| UtxoIndex.ProgressFits | domain/utxoindex/utxoindex.go:175-193 | no page of a rebuild meets a count error or a missing supply record |
| UtxoIndex.ReadUTXOs | domain/utxoindex/utxoindex.go:297-308 | a healthy index lists the outpoints of the virtual set that pay to the script, in order and with their amounts, up to the limit |
| UtxoIndex.ReadHasUTXOs | domain/utxoindex/utxoindex.go:325-331 | a healthy index answers whether the virtual set has an outpoint that pays to the script |
| UtxoIndex.ReadBalance | domain/utxoindex/utxoindex.go:334-340 | a healthy index answers with the amounts of the virtual set that pay to the script, modulo 2^64 |
| UtxoIndex.ReadSupply | domain/utxoindex/utxoindex.go:343-348 | a healthy index answers with all amounts of the virtual set, modulo 2^64 |
| BitRegrouping.ConvertBits | util/bech32/bech32.go:173-223 | the bit loop computes the regrouping of the bit stream, for every pair of widths |
| BitRegrouping.PackMeaning | util/bech32/bech32.go:173-223 | the groups are below 2^w and spell the stream, completed with or cut by fewer than w bits |
| BitRegrouping.SamePack | util/bech32/bech32.go:173-223 | that meaning determines the groups |
| BitRegrouping.RegroupRoundTrip | util/bech32/bech32.go:173-223 | bytes to padded 5-bit groups and back is the identity; there are ceil(8n/5) groups below 32 |
| BitRegrouping.RegroupBackIffCanonical | util/bech32/bech32.go:173-223 | groups to bytes and back is the identity if and only if the leftover bits are fewer than five zeros |
| Checksum.RunXor | util/bech32/bech32.go:295-311 | the register is linear over exclusive or |
| Checksum.StepZeroInjective | util/bech32/bech32.go:295-311 | a step with a zero symbol maps only the zero register to zero |
| Checksum.ComputePolyMod | util/bech32/bech32.go:295-311 | the loop computes the remainder |
| Checksum.ComputeChecksum | util/bech32/bech32.go:230-255 | the loop computes the eight checksum symbols |
| Checksum.ComputeVerify | util/bech32/bech32.go:259-271 | the check compares the remainder with zero |
| Checksum.VerifyIffCalculated | util/bech32/bech32.go:230-271 | eight symbols verify after a payload if and only if they are its checksum |
| Checksum.BurstChangesRemainder | util/bech32/bech32.go:295-311 | different sequences of any length that differ within eight consecutive symbols have different remainders |
| Checksum.BurstDetected | util/bech32/bech32.go:225-271 | of two data parts that differ within eight consecutive symbols at most one verifies |
| Checksum.VerifyIffRemainder | util/bech32/bech32.go:259-282 | data verify under a prefix if and only if the remainder of the low five bits of its characters, a zero and the data is zero |
| Checksum.ShortRemainder | util/bech32/bech32.go:295-311 | the remainder of up to seven symbols is a one followed by their bits, with the lowest bit turned over |
| Checksum.PrefixBurstDetected | util/bech32/bech32.go:259-282 | of two data parts under two prefixes of one length that differ within eight consecutive places at most one verifies |
| Checksum.PrefixMatters | util/bech32/bech32.go:259-282 | prefixes that differ in the low five bits of one character never verify over the same data |
| Bech32.ComputeDecodeFromBase32 | util/bech32/bech32.go:142-153 | succeeds if and only if every character is in the alphabet, and gives the positions |
| Bech32.ComputeEncodeToBase32 | util/bech32/bech32.go:160-169 | prints groups below 32 and gives the empty string for any other |
| Bech32.ComputeEncode | util/bech32/bech32.go:37-45 | the loops compute the encoding |
| Bech32.ComputeDecodeSymbols | util/bech32/bech32.go:63-122 | the loops compute the parse, error by error in the order of the checks |
| Bech32.ComputeDecode | util/bech32/bech32.go:48-59 | the loops compute the decoding |
| Bech32.ParseIff | util/bech32/bech32.go:63-138 | a string parses to a prefix and data if and only if it is printable, of one case, and their encoding up to case |
| Bech32.MixedCaseIff | util/bech32/bech32.go:79-85 | a string is rejected for its case if and only if it has an upper and a lower case letter |
| Bech32.OtherPrefixRejected | util/bech32/bech32.go:63-122 | a valid string is rejected when one character of its prefix is changed in its low five bits |
| Bech32.SymbolsRoundTrip | util/bech32/bech32.go:63-138 | symbols under a plain prefix parse back, as printed and in upper case |
| Bech32.RoundTrip | util/bech32/bech32.go:37-59 | decoding undoes encoding, as printed and in upper case |
| Bech32.RoundTripIff | util/bech32/bech32.go:37-59 | decoding undoes encoding if and only if the prefix is non-empty, printable and without upper case |
| Bech32.ReencodeIffCanonical | util/bech32/bech32.go:48-59 | encoding undoes decoding if and only if the padding is canonical |
| Bech32.PaddingIgnored | util/bech32/bech32.go:48-59 | a string with a padding bit set decodes like the canonical one |
| Address.PrefixTable | util/address.go:44-86 | printing and parsing a network prefix are inverse, and every known prefix is plain |
| Address.Printed | util/address.go:44-130 | the prefix string of every network and the version of every kind in the printed form |
| Address.FromDecodedIff | util/address.go:134-163 | an address comes out if and only if its kind, network and length are those that were encoded |
| Address.AddressRoundTripIff | util/address.go:92-163 | decoding gives an address back if and only if its network is known and expected, for all five kinds |
| Address.EncodingsDistinct | util/address.go:92-94 | different addresses have different strings |
| Address.DecodedAddress | util/address.go:134-163 | what is decoded is well formed and prints as the same string if and only if the padding is canonical |
| OrphanPool.FlowContext.AddOrphan | app/protocol/flowcontext/orphans.go:22-35 | the pool gains the block and loses one orphan if and only if it overflows; it never exceeds 600 |
| OrphanPool.FlowContext.EvictRandomOrphan | app/protocol/flowcontext/orphans.go:37-45 | exactly one orphan leaves |
| OrphanPool.FlowContext.FindChildren | app/protocol/flowcontext/orphans.go:121-132 | exactly the pooled children of a block, each once |
| OrphanPool.FlowContext.AddChildren | app/protocol/flowcontext/orphans.go:108-119 | the queue gains exactly the children it lacks and stays free of duplicates and inside the pool |
| OrphanPool.FlowContext.AllParentsKnown | app/protocol/flowcontext/orphans.go:75-88 | true only if every parent is there with more than a header, false only if one is not, an error if and only if a question meets one |
| OrphanPool.FlowContext.UnorphanBlock | app/protocol/flowcontext/orphans.go:134-151 | the block leaves the pool whatever consensus answers; the non-orphan error if and only if it is not pooled |
| OrphanPool.SkipStep | app/protocol/flowcontext/orphans.go:75-88 | a block with a missing parent may leave the queue, and what it was missing is remembered |
| OrphanPool.RejectStep | app/protocol/flowcontext/orphans.go:89-98 | a rejected block may leave queue and pool |
| OrphanPool.InsertStep | app/protocol/flowcontext/orphans.go:89-98 | an accepted block leaves queue and pool, and every child it may unblock is queued |
| OrphanPool.FlowContext.Consider | app/protocol/flowcontext/orphans.go:67-99 | one round keeps the invariant, never meets the non-orphan error, makes the pool or the queue smaller, and goes on unless a question met an error or consensus answered with one that is no rule error |
| OrphanPool.FlowContext.UnorphanBlocks | app/protocol/flowcontext/orphans.go:57-102 | ends; every block handed over had all parents known at that moment; every pooled child of what was inserted was missing a parent when it was last considered, and that parent has no accepted body still, unless another flow inserted it since; the result lists what was accepted; there is an error if and only if a question met one or consensus answered the last block with one that is no rule error |
| OrphanPool.EnqueueParents | app/protocol/flowcontext/orphans.go:191-196 | queues exactly the parents never queued before |
| OrphanPool.ParentStep | app/protocol/flowcontext/orphans.go:191-196 | expanding a pooled hash keeps the search reachable and complete |
| OrphanPool.SearchDone | app/protocol/flowcontext/orphans.go:154-200 | an empty queue means that consensus was asked for exactly the reachable hashes that are not pooled |
| OrphanPool.FlowContext.GetOrphanRoots | app/protocol/flowcontext/orphans.go:154-200 | ends; an error if and only if a question meets one; asks consensus for exactly the non-pooled hashes reachable through pooled orphans, and gives without duplicates those whose answer is not to be skipped, while consensus goes on storing blocks |
| ConsensusLock.StepKeepsInv | domain/consensus/consensus.go:300-372 | every step of every thread keeps the lock exclusive and the flag in line with the history |
| ConsensusLock.RunKeepsInv | domain/consensus/factory.go:574 | every state of every run has both, from a new instance with the flag up |
| ConsensusLock.InsertionsFindVirtualUpdated | domain/consensus/consensus.go:300-337 | a block is inserted with a virtual update only by the owner of the lock, with the flag down and no body pending |
| ConsensusLock.OnlyTheOwnerActs | domain/consensus/consensus.go:300-372 | the flag and the history change only under the lock |
| ConsensusLock.FlagIsHonest | domain/consensus/consensus.go:350-372 | the flag is down only if a complete resolve followed the last body inserted without a virtual update, but for the owner about to raise it |
| ConsensusLock.LockIsExclusive | domain/consensus/consensus.go:300-348 | one thread inside at most, and no thread returns with the lock |
| ConsensusLock.OwnerCanMove | domain/consensus/consensus.go:300-348 | the owner of the lock is never stuck |
| ConsensusLock.LockIsReleased | domain/consensus/consensus.go:300-348 | on every path the owner makes at most six steps before it unlocks |
| ConsensusLock.OwnerAdvances | domain/consensus/consensus.go:1074-1137 | every step under the lock comes closer to the unlock |
| ConsensusLock.ReturnsHonestly | domain/consensus/consensus.go:300-372 | over every run a call that returned without an error made its own event since it began: an insertion of its mode, or a complete resolve |
| ConsensusLock.InsertCompletes | domain/consensus/consensus.go:300-337 | an uninterrupted insertion with a virtual update resolves first if and only if the flag is up, inserts, leaves the flag down and returns |
| ConsensusLock.InsertOnlyCompletes | domain/consensus/consensus.go:339-372 | an uninterrupted insertion without one inserts, raises the flag if and only if there is a body, and returns |
| ConsensusLock.ResolveCompletes | domain/consensus/consensus.go:1074-1137 | an uninterrupted complete resolve lowers the flag and returns |
| StagingDomain.DeletePrefix | domain/prefixmanager/prefix.go:85-108 | deletes what the cursor listed under the inactive prefix, in that order, up to a fault; every state on the way shows the same active consensus; what is left is what still waits for its turn and what was written behind the cursor, and without other writes exactly the first records of the listing are gone |
| StagingDomain.RemoveMarker | domain/prefixmanager/prefix.go:72-82 | the marker goes, then the compaction; the trace stays tidy if and only if the marker stays or nothing was written behind the cursor |
| StagingDomain.DeleteInactivePrefix | domain/prefixmanager/prefix.go:52-83 | ends at the fault that hits it; every state on the way shows the same active consensus; what is left is determined by the listing, the fault and the writes meanwhile; the trace stays tidy if and only if the marker stays or nothing was written behind the cursor |
| StagingDomain.SwapShowsStaging | domain/domain.go:138-151 | the batch makes what the inactive marker names the active consensus and the other way round, and nothing becomes stray |
| StagingDomain.RestIsCleanIff | domain/domain.go:181-187 | what a start leaves is the active consensus alone if and only if nothing was stray |
| StagingDomain.WholeIff | domain/prefixmanager/prefix.go:85-108 | a deletion without other writes leaves the prefix as it was if and only if it deleted nothing |
| StagingRuns.StrayAfterFailedCommit | domain/domain.go:153-165 | a run of the operations in which the compaction of a commit fails, the old instance writes, and the restart keeps the stray record |
| StagingRuns.StrayDuringCommit | domain/domain.go:153-165 | a run in which a commit succeeds, the old instance writes meanwhile, and the restart keeps the stray record |
| StagingRuns.CommitWithoutInstance | domain/domain.go:89-165 | a run in which the factory fails, the commit after it succeeds, and the node is left with an empty consensus and no instance |
| StagingRuns.RetriedCommit | domain/domain.go:109-165 | a run in which a commit fails at its last marker, the second one succeeds, and neither consensus is left |
| StagingRuns.CommitAfterCutDeletion | domain/domain.go:109-178 | a run in which a deletion of the staging consensus fails after one of two records and a commit makes the other one the active consensus |
| StagingDomain.Domain.InitStagingConsensus | domain/domain.go:65-107 | sets the marker first, refuses without an active or with an inactive prefix, and starts a staging consensus that is complete from an empty prefix unless stray data is there |
| StagingDomain.Domain.WriteStaging | domain/domain.go:48-52 | one record under the prefix of the staging instance, in the active or staging consensus or stray as the markers say; a ready instance stays ready |
| StagingDomain.Domain.CommitStagingConsensus | domain/domain.go:109-165 | every state it adds shows what the inactive marker named, which is what was written through the staging instance if and only if that instance was ready; the outcome of every fault; the instance in memory writes under a marker if and only if the call succeeded or the inactive marker is left |
| StagingDomain.Domain.DeleteStagingConsensus | domain/domain.go:167-178 | every state it adds shows the same active consensus; the outcome of every fault; the staging instance is gone or writes under a marker if and only if the call succeeded or the inactive marker is left, and without other writes it stays ready if and only if neither a record nor the marker was deleted |
| StagingDomain.New | domain/domain.go:181-227 | from any state: exactly what the inactive marker names is deleted, so only active-prefix data remains if and only if nothing was stray; the instance writes under the active prefix; there is an instance if and only if the deletion ended well, a marker that was needed was written and the factory succeeded |
| StagingRuns.StraysOnlyIf | domain/domain.go:109-178 | only a write, or a deletion with writes meanwhile, leaves data that no marker names, and none does if the event is calm and the instances are in place |
| StagingRuns.CommitFollows | domain/domain.go:109-165 | a commit of a node in step shows what was staged, whatever fault stops it behind the swap, and without a fault the new instance serves it |
| StagingRuns.RestartFollows | domain/domain.go:181-187 | a start from any state that a crash leaves finds a consensus that was active, and no staging consensus |
| StagingRuns.Handle | domain/domain.go:65-178 | one operation with any failure: the trace stays tidy if and only if it does not stray; calm events keep the instances in place; an operation of a running plain node is its next step |
| StagingRuns.FaultyIff | domain/domain.go:65-178 | exactly which operations can stop a running plain node half way |
| StagingRuns.Run | domain/domain.go:65-227 | over any run with failures, crashes at any write and writes meanwhile: markers stay sane and every write leaves the active consensus alone, puts one record in it or swaps the markers; calm events keep every state tidy; an orderly run refines the plain node, so every state ever on a disk shows a consensus that was active, every commit shows what was staged, and the instances serve both |
| ErrorChannel.CrashesIff | app/protocol/flowcontext/errors.go:24-62 | over every run the node panics if and only if some failure that was judged was of no known kind, and nothing follows; callbacks for invalid messages are never judged |
| ErrorChannel.StepKeepsInv | app/protocol/flowcontext/errors.go:64-66 | every step keeps the counter, the winners and the channel in line |
| ErrorChannel.SendsExactly | app/protocol/flowcontext/errors.go:64-66 | exactly ceil(n/2^32) errors are sent or due after n additions, so at most one if and only if n is at most 2^32 |
| ErrorChannel.SenderNeverBlocks | app/protocol/protocol.go:26-56 | with at most 2^32 additions whoever has to send finds room in the channel |
| ErrorChannel.ReceivedIsTheOnlyOne | app/protocol/manager.go:96-107 | after a receive in such a run no other error is sent or due |
| ErrorChannel.SentRightfully | app/protocol/flowcontext/errors.go:24-66 | over every run only closed routes, wire-format, protocol and rule errors and invalid messages are sent, never a missing database record, and exactly the right ones as a ban |
| ErrorChannel.FailureGoesOn | app/protocol/flowcontext/errors.go:24-66 | which kinds of failure go on to the counter, which end their flow alone, and which crash the node |
| Propagation.DrainMore | app/protocol/flowcontext/transactions.go:85-99 | one broadcast takes the next message off the queue |
| Propagation.Propagator.MaybePropagateTransactions | app/protocol/flowcontext/transactions.go:79-104 | nothing happens before it is due; then the queue is sent in full messages in order, up to the first broadcast that fails; an error if and only if one does |
| Propagation.Propagator.Enqueue | app/protocol/flowcontext/transactions.go:70-77 | no ID is lost, repeated or reordered; an error if and only if a broadcast that is due fails |
| Propagation.Run | app/protocol/flowcontext/transactions.go:70-104 | over any run with failing broadcasts, messages followed by pending IDs are everything enqueued, in order |
| Difficulty.CompactToBigWithDestination | util/difficulty/difficulty.go:51-74 | the masks and shifts on the 32-bit word give the mantissa, the sign and the exponent, and the destination their value |
| Difficulty.ComputeBigToCompact | util/difficulty/difficulty.go:80-142 | the low word, its cut to 32 bits, the shifts and the packing with bitwise or compute the packed normal form |
| Difficulty.LowWordExact | util/difficulty/difficulty.go:93-119 | the cut of the low word to 32 bits never happens |
| Difficulty.PackedBits | util/difficulty/difficulty.go:130-141 | shifting the capped exponent and the bitwise or keep the low byte of the exponent beside the mantissa |
| Difficulty.SplitIsNormal | util/difficulty/difficulty.go:80-131 | mantissa and exponent are the normal form: a mantissa between 2^15 and 2^23, cut below |
| Difficulty.NormalUnique | util/difficulty/difficulty.go:80-131 | a number has one normal form |
| Difficulty.RoundsIff | util/difficulty/difficulty.go:51-142 | the value read back is at most n and off by less than one part in 2^15 if and only if n is below 2^2039 |
| Difficulty.TooLarge | util/difficulty/difficulty.go:133-137 | 256^255 does not read back within the bound |
| Difficulty.Canonical | util/difficulty/difficulty.go:51-142 | re-encoding a decoded target gives the same bits |
| Difficulty.CompactMonotone | util/difficulty/difficulty.go:80-142 | a larger number never gets smaller bits |
| Difficulty.WorkBound | util/difficulty/difficulty.go:153-165 | the work of a rounded target is at least that of the target |
| Difficulty.WorkExact | util/difficulty/difficulty.go:153-165 | the work w of a target t is zero unless t is positive, and then w(t+1) <= 2^256 < (w+1)(t+1) |
| Difficulty.WorkAntitone | util/difficulty/difficulty.go:153-165 | a larger positive target never has more work |
| Sweep.CreateSplitTransactions | cmd/eiyarowallet/sweep.go:140-218 | the loop computes the greedy packing; every transaction pays its inputs less the fee per input, in 64 bits, and stays under the standard mass; the mass error only for a UTXO that is too heavy alone, the fee error if and only if the fee is negative |
| Sweep.PackedIff | cmd/eiyarowallet/sweep.go:165-216 | the packing is the only one whose runs are contiguous, fit at every length, and are each ended by the one UTXO that would break them |
| Sweep.AllSweptIff | cmd/eiyarowallet/sweep.go:165-216 | every UTXO is swept if and only if all of them fit in one transaction, at every length on the way |
| Sweep.SplitSkips | cmd/eiyarowallet/sweep.go:192-204 | for any mass, the UTXO that breaks a fitting run is skipped and the packing starts anew behind it |
| Sweep.SkippedInNone | cmd/eiyarowallet/sweep.go:192-204 | a skipped UTXO is in no transaction |
| Sweep.PaysExactly | cmd/eiyarowallet/sweep.go:184-190 | a transaction pays its inputs less the fee per input |
| Sweep.CountsAddUp | cmd/eiyarowallet/sweep.go:165-216 | every UTXO is an input of one transaction or triggered a split |
| Sweep.Conservation | cmd/eiyarowallet/sweep.go:165-216 | payments, fees and skipped UTXOs add up to the selected ones |

## Left out

- The consensus managers and stores behind the consensus interface are abstract; the orphan pool sees only block statuses.
- Database keys are taken as injective and cursors as visiting each key of a bucket once, in order; byte layouts and serialization are not modelled.
- A stage holds its entries by script and outpoint and its bucket names beside them, instead of a map of maps; the lists returned by an update are maps, because the order is not determined.
- UtxoStore.Store.Commit: errors of single reads and of preparing a batch are not told apart from a failing write of the batch; the other operations of the store model failing writes only.
- PaginatedUTXOs and the reuse of memory buffers are a window of the listing and allocation details; the 32-bit check of the limit of UTXOs is not modelled.
- OrphanPool.FlowContext.UnorphanBlocks: a parent that another flow inserts after a child of it was considered does not move the child, because that flow makes its own call for the parent.
- UtxoIndex.HandleChange: a change that is no difference of the set the index is at is skipped, because consensus reports differences in order.
- ConsensusLock.FlagIsHonest: blocks inserted with trusted data (domain/consensus/consensus.go:79-88) are not among the events; that call inserts under the lock and raises no flag.
- StagingDomain.Domain.CommitStagingConsensus: only writes under the prefix being deleted are interleaved with its writes, because writes under the other prefix commute with them; a goroutine that keeps an instance beyond the call is not modelled.
- StagingRuns.Run: an orderly run is sufficient for the refinement and a calm one for tidiness; the exact conditions are stated for single operations.
- StagingDomain.New: the records a new consensus instance writes by itself are ordinary writes of that instance; migration is built from the modelled operations and is not a member of its own.
- Difficulty.SplitIsNormal: negative numbers are not modelled.
- Address construction from keys and scripts hashes or copies its input first; hashing is not modelled.
- Decoding fewer than two data symbols indexes an empty slice in the source; the model gives it a result of its own and says nothing more about it.
- The mass of a transaction is an opaque function, and signing and sending are not modelled.
- The handshake and the other flows of a connection appear only as threads that may fail.
- RPC handlers, message structs, logging, configuration, mining, the mempool and the remaining wallet commands would add only easy members.
