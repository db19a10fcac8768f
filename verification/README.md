# bgscan: a verified model of its hard core

bgscan expands lists of addresses and networks, sends every address through a
chain of probes, keeps the best results on disk and on screen, and rewrites
proxy templates. This project models the parts of it whose correctness is not
visible in one function body, and proves what they promise.

| area | modules |
|---|---|
| shuffled target streaming | `Lcg`, `Netip`, `IpList`, `Indexer`, `Shuffle` (with `Arith` and `Options`) |
| result persistence | `Ordering`, `Results`, `ResultMerge`, `ResultFile`, `ResultRuns`, `LatencyFormat`, `ResultWriter` |
| scan pipeline | `Pipeline`, `PipelineSafety`, `PipelineFlow`, `PipelineRuns`, `PipelineLimit`, `PipelineMeasure`, `PipelineProgress`, `BatchMode` (with `Sums`) |
| live top-rows table | `TopTable` (with `Seqs`) |
| sorting large files | `TextLines`, `ExternalSort` |
| local port pool | `PortPool` |
| commented JSON | `Jsonc` |
| outbound address rewriting | `HostPort`, `Outbound`, `OutboundSteps`, `OutboundTargets`, `OutboundPaths`, `OutboundRewrite` |

Loops and in-place updates are methods with loops, arrays and classes, each
proved against a function; goroutines are interleaved atomic steps (`Step` and
the functions that apply it in `Pipeline`, `ResultWriter` and `PortPool`), and
results about them hold for every list of enabled steps. Addresses are naturals
below 2^32 or 2^128, the 16-byte form is an array, `uint64` arithmetic wraps
where the program's does, and scores are reals. Randomness, clocks, probe
outcomes and failures of I/O are parameters or free choices of a step.

## What the proofs found

- A limit of 0 becomes 2^64 - 2, so without a cancellation everything goes out
  if and only if there are fewer than 2^64 - 1 addresses
  (`Shuffle.StreamActiveIPs`; `Shuffle.DefaultLimitCuts` is a list of exactly
  that many).
- A permutation of the sequential stream is not what the shuffled stream
  delivers when an active IPv6 range reaches into ::ffff:0:0/96: adding an
  offset turns those addresses into IPv4 ones. The two agree exactly when no
  range does (`Indexer.IndexedIsSequential`), and ::/65 is a range that fits the
  index and does not (`Indexer.SmallCrossingRange`).
- Beyond 2^64 addresses the proportional index keeps no single host at all, and
  no range whose share rounds to zero (`Indexer.BuildProportional`).
- Formatting a result and parsing it again does not keep the order of a result
  file: the score truncates the latency to milliseconds, parsing rounds it, so
  the ties 1.6 ms and 1.4 ms read back as 2 ms and 1 ms
  (`LatencyFormat.LatencySeparatesTies`). Flushing a at 1.6 ms with b at 1.4 ms
  and then b at 1.7 ms leaves b twice, around a lower score
  (`LatencyFormat.RepeatedAddressDuplicates`); a third address at 1.5 ms alone
  loses the order (`LatencyFormat.FreshAddressUnranks`). On streams from a given
  set of records the file stays ranked if and only if formatting and parsing
  never swap two of them that a file can hold in that order, ties included
  (`ResultRuns.RankedIffOrderKept`); on measured latencies, if and only if
  rounding keeps their order in whole milliseconds
  (`LatencyFormat.RankedIffInOrder`).
- For the same reason the best score of a key can be lost: 1.6 ms scores 1000 and
  ends at 500 (`LatencyFormat.RoundingLoses`). Every batching of every stream
  keeps the best scores if and only if every score is read back as it was
  (`ResultRuns.BatchingIrrelevant`, `LatencyFormat.BestIffKept`), and no score on
  file ever worsens if and only if none is lowered
  (`ResultRuns.PersistsIffNeverLowers`). Which latencies keep their score is
  decided exactly (`LatencyFormat.ScoreKept`): all below a millisecond; up to a
  second those whose fraction of a millisecond prints below a half; from a second
  on those within a millisecond above a multiple of ten. A result of m whole
  milliseconds never falls past m + 1 below a second, or the next multiple of ten
  above, however often the file is merged (`LatencyFormat.NeverPastCeiling`,
  `ResultWriter.CloseKeepsLatency`), and that bound is reached
  (`LatencyFormat.CeilingReached`).
- On a key-unique file in any order the merge writes a key twice if and only if
  its file record, at least as good as its batch record, stands below a file
  record that the batch record beats (`ResultMerge.UniqueIffNoClash`). The emit inside the key
  match never writes, on any file (`ResultMerge.MergeWithExisting`).
- The two file sorts agree exactly on plain files: not empty, no trailing blank
  lines, no line of 65536 bytes or more, none ending in a carriage return. The
  chunk merge drops the rest of a chunk at its first long line without an error
  and strips a second carriage return (`ExternalSort.SortExternal`,
  `ExternalSort.CarriageReturnLost`).
- After `49152 - (start + count)` replacements the next replacement port is the
  first port again, and a run leases it twice (`PortPool.OneMoreLeasesTwice`).
  The constructor does not check that its ports stay below 49152.
- With no rows allowed the table merge would read the first row of an empty
  slice (`TopTable.ScanStage.MergeTaken`); the settings keep the limit positive.
- Rewriting an outbound a second time with port 0 keeps the port of the first
  rewrite (`OutboundRewrite.SecondRewriteWins`).

## Model

| member | source | states |
|---|---|---|
| Lcg.PeriodExact | internal/core/iplist/shuffle.go:218-258 | for every k and seed, n steps of x*a+c modulo 2^k with a = 1 mod 4 and c odd return to the seed exactly when 2^k divides n |
| Lcg.NoRepeat | internal/core/iplist/shuffle.go:254-258 | no residue repeats within 2^k consecutive steps |
| Lcg.WalkIsPermutation | internal/core/iplist/shuffle.go:254-258 | any 2^k consecutive steps reach every residue exactly once |
| Lcg.GeoFactors | internal/core/iplist/shuffle.go:219-220 | the divisibility fact behind the period: 1 + a + ... + a^(n-1) is a multiple of 2^k exactly when n is |
| Netip.PrefixInterval | internal/core/iplist/parser.go:27-31 | a masked prefix contains exactly the interval of its size from its address, inside its family |
| Netip.AddOffset | internal/core/iplist/shuffle.go:313-320 | the in-place carry loop leaves the 16 bytes equal to the sum modulo 2^128, and no intermediate value leaves uint64 |
| Netip.AddBigOffset | internal/core/iplist/shuffle.go:327-336 | the unbounded carry loop leaves the same sum modulo 2^128 |
| Netip.AddOffsetToAddr | internal/core/iplist/shuffle.go:313-323 | the address that far on, through the 16-byte form and back |
| Netip.AddBigOffsetToAddr | internal/core/iplist/shuffle.go:327-339 | the same address as the 64-bit version, for offsets of any size |
| Netip.PlusPlus | internal/core/iplist/shuffle.go:183-186 | a start offset followed by an index offset is one addition |
| Netip.PlusMeaning | internal/core/iplist/shuffle.go:313-323 | stepping stays in the family, except that IPv4 overflows to the IPv6 addresses behind ::ffff:0:0/96 and IPv6 inside that block becomes IPv4 |
| Netip.UnmapAs16 | internal/core/iplist/shuffle.go:314-322 | the 16-byte round trip loses nothing but the family of an embedded IPv4 address |
| IpList.StreamCIDR | internal/core/iplist/parser.go:27-50 | sends the network's addresses in order, cut exactly at the limit and the cancellation |
| IpList.ExpandMeaning | internal/core/iplist/parser.go:27-50 | the stream of a network holds exactly the addresses the network contains, each at its distance from the first |
| IpList.SequentialMeaning | internal/core/iplist/parser.go:105-132 | an address is streamed if and only if a row that parses and is switched on contains it |
| IpList.OffChangesNothing | internal/core/iplist/parser.go:108-114 | a row that does not parse or is switched off can be deleted anywhere without changing the stream |
| IpList.OnAddsItsNetwork | internal/core/iplist/parser.go:108-131 | a row that is switched on appends its network's addresses |
| IpList.StreamRow | internal/core/iplist/parser.go:108-131 | one row's share of the stream: nothing of a row that does not parse or is switched off, else the first addresses of its network; and when reading stops |
| IpList.StreamActiveSequential | internal/core/iplist/parser.go:105-132 | the stream is the list of all active addresses in file order, cut at the limit and the cancellation; it holds only addresses of rows that are switched on, all of them when it is not cut, and nothing when all rows are off |
| IpList.StopEndsInTime | internal/core/iplist/parser.go:36-48 | a stream ends no later than its limit and its cancellation, and only at one of them or at the end of the list |
| IpList.SaturatingAdd | internal/core/iplist/shuffle.go:389-396 | the wrapping addition with its check is the sum clamped to 2^64 - 1 |
| IpList.CountEntry | internal/core/iplist/loader.go:176-182 | a network's size, clamped to 2^64 - 1 |
| IpList.CountActiveIPs | internal/core/iplist/loader.go:164-174 | the reported total is the length of the sequential stream, clamped to 2^64 - 1, and 0 when all rows are off |
| Indexer.ReadEntries | internal/core/iplist/shuffle.go:78-123 | exactly the rows that are switched on have an entry, which holds the row's address, exact size and kind, and the total is exact and unbounded |
| Indexer.FlattenAt | internal/core/iplist/shuffle.go:292-309 | index g inside a block is that block's address number g minus its first index |
| Indexer.UniqueOwner | internal/core/iplist/shuffle.go:145-151 | at most one block owns an index |
| Indexer.GetIPFromCIDRBlocks | internal/core/iplist/shuffle.go:294-309 | the binary search returns the address of the owning block, for every index below the block total |
| Indexer.BuildDirect | internal/core/iplist/shuffle.go:135-154 | when the total fits, blocks tile the index from 0 and blocks and singles hold exactly the entries' addresses |
| Indexer.QuotaSum | internal/core/iplist/shuffle.go:160-166 | the quotas so far stay within their share of 2^64 - 1 |
| Indexer.QuotaExact | internal/core/iplist/shuffle.go:160-166 | a quota is the largest number of indices within the range's exact share |
| Indexer.QuotaBelowSize | internal/core/iplist/shuffle.go:160-166 | no quota exceeds its range |
| Indexer.BuildProportional | internal/core/iplist/shuffle.go:156-191 | beyond 2^64, every kept range gets a nonempty window inside itself, the windows tile the index, their number is the sum of the ranges' shares, no single is kept, and no addition clamps |
| Indexer.WindowInside | internal/core/iplist/shuffle.go:174-187 | a window's addresses are a contiguous stretch of its own prefix |
| Indexer.LaidContained | internal/core/iplist/shuffle.go:33-195 | direct or proportional, the index stands for no address more often than the file's entries do |
| Indexer.NewMasterIndexer | internal/core/iplist/shuffle.go:33-195 | the index is empty, direct or proportional as the total demands, and well formed in each case |
| Indexer.IndexedIsSequential | internal/core/iplist/shuffle.go:96-151 | the index holds the sequential stream's multiset if and only if no active IPv6 range reaches into ::ffff:0:0/96 |
| Indexer.SmallCrossingRange | internal/core/iplist/shuffle.go:313-323 | ::/65 fits the index and is such a range, so the two multisets differ |
| Shuffle.PowerOfTwoTest | internal/core/iplist/shuffle.go:233-236 | n & (n - 1) is 0 exactly for powers of two |
| Shuffle.RingFits | internal/core/iplist/shuffle.go:227-239 | the ring holds the index and is less than twice as large |
| Shuffle.ChooseRing | internal/core/iplist/shuffle.go:227-239 | the ring and the first state for every seed |
| Shuffle.StepIsNext | internal/core/iplist/shuffle.go:254-258 | wrapping 64-bit arithmetic followed by the modulus is the step x * 6364136223846793005 + 1442695040888963407 of the ring |
| Shuffle.HitsComplete | internal/core/iplist/shuffle.go:243-262 | one turn of the ring hits every index below the total exactly once |
| Shuffle.AddressAt | internal/core/iplist/shuffle.go:264-285 | every index below the total reads an address, from its block or from a valid single offset |
| Shuffle.StreamActiveShuffled | internal/core/iplist/shuffle.go:200-290 | for every total, limit, cancellation and seed: at most one turn of the ring, the places visited are the in-range states of the walk from the seed, each once, it sends what the index holds there, exactly as many as there are to offer before limit and cancellation, none more often than the file's entries hold it, and everything, as a multiset, when nothing cuts it |
| Shuffle.CoversIffUncut | internal/core/iplist/shuffle.go:243-246 | an uncancelled run visits every index if and only if the limit does not cut it |
| Shuffle.SelectContained | internal/core/iplist/shuffle.go:241-287 | reading a sequence at distinct places takes no element more often than it is there |
| Shuffle.SelectPermutation | internal/core/iplist/shuffle.go:241-287 | reading a sequence at all its places once gives a permutation |
| Shuffle.ShuffleIsPermutation | internal/core/iplist/shuffle.go:241-287 | a run that is not cut sends a permutation of the indexed addresses |
| Shuffle.ShuffledCount | internal/core/iplist/shuffle.go:243-246 | a run sends exactly as many addresses as total, limit and cancellation allow; the total is that of the sequential stream when it fits, and the sum of the ranges' shares otherwise |
| Shuffle.OverflowWindow | internal/core/iplist/shuffle.go:174-187 | beyond 2^64 each block hands out a stretch of one active range |
| Shuffle.StreamActiveIPs | internal/core/iplist/parser.go:92-102 | for every total and cancellation, either mode sends exactly what it has to offer, cut at the effective limit (2^64 - 2 for 0) and the cancellation; off the embedding block no address more often than the file has it, only addresses of rows that are switched on, and all of them when uncut; shuffled mode sends the sequential multiset exactly when no range reaches into the block; a limit of 0 covers everything if and only if there are fewer than 2^64 - 1 addresses |
| Shuffle.DefaultLimitCuts | internal/core/iplist/parser.go:93-95 | there is a list of exactly 2^64 - 1 addresses, and with the limit 0 one of them is not sent |
| Ordering.StableSortIsStable | internal/ui/components/scanner/stage.go:175 | the reference sort is sorted and keeps ties in order |
| Ordering.StableSortUnique | internal/ui/components/scanner/stage.go:175 | a stable sort has one possible result |
| Ordering.StrCmpMeaning | internal/core/fileutil/sort.go:57 | a string compares lower exactly if it is a proper prefix or has the smaller byte at the first difference |
| Results.CmpResultOrders | internal/ui/components/scanner/stage.go:142-147 | score descending then key ascending is a total preorder |
| Results.CmpResultMeaning | internal/ui/components/scanner/stage.go:142-147 | a result comes first exactly if it scores higher, or scores the same and its key comes first byte by byte |
| Results.BestMeaning | internal/core/result/merger.go:44-54 | the score table holds each key's highest score and nothing else |
| Results.BestConcat | internal/core/result/merger.go:16-22 | score tables of two streams combine by maximum |
| ResultFile.DedupInPlace | internal/core/result/merger.go:44-54 | the compaction in place keeps the first record of each key |
| ResultFile.DedupRanked | internal/core/result/merger.go:33-54 | sorting then compacting gives a score-descending key-unique batch with each key's best score |
| ResultMerge.BuildKeyOrder | internal/core/result/merger.go:114-120 | the index permutation lists the batch by key |
| ResultMerge.Holds | internal/core/result/merger.go:122-130 | the binary search finds a key's record exactly when the batch has one |
| ResultMerge.AbsorbRecord | internal/core/result/merger.go:144-161 | one step of the streamed merge, and how often the late emit writes |
| ResultMerge.MergeWithExisting | internal/core/result/merger.go:107-174 | on any file the written sequence is the merge, and the emit inside the key match never writes |
| ResultMerge.PastCursor | internal/core/result/merger.go:145-155 | a better batch record is behind the cursor when its key comes up |
| ResultMerge.MergeWrites | internal/core/result/merger.go:107-174 | on any file: a file record is written exactly if no batch record of its key beats it, a batch record exactly if the file, wherever it holds that key, has by then fallen below the batch record's score |
| ResultMerge.UniqueIffNoClash | internal/core/result/merger.go:144-161 | on a key-unique file in any order, keys stay unique if and only if no file record that is at least as good as the batch record of its key stands below a file record that the batch record beats |
| ResultMerge.MergeBest | internal/core/result/merger.go:16-22 | on any file the best score of every key is the higher of the two |
| ResultMerge.MergeIsMerged | internal/core/result/merger.go:107-174 | for a ranked file and batch: ranked output with, per key, the higher-scored record, the existing one on a tie, and nothing else; file records come first among equal scores, batch records by key |
| ResultFile.MergeResults | internal/core/result/merger.go:23-103 | one flush leaves the merge of the file, as it reads back, with some sorted and deduplicated order of the batch, and an empty batch changes nothing |
| ResultFile.FlushEffect | internal/core/result/manager.go:281-304 | after a flush the score table is the maximum of what the file reads back as and the batch, in any order of the file; if that reads back ranked, the new file is ranked |
| ResultRuns.AlwaysRanked | internal/core/result/merger.go:18-22 | on streams from a set of records closed under reading back, if formatting and parsing keep the order of those that a file can hold in that order, the file is score-descending and key-unique after any series of flushes |
| ResultRuns.RankedIffOrderKept | internal/core/result/merger.go:18-22 | for every such set, the file stays so on every stream from it and every batching if and only if that holds; a record read back precedes all of its score, other ties go by key |
| ResultRuns.FoldedBest | internal/core/result/manager.go:281-304 | on streams from a set of records that read back with their scores, the file is ranked after each flush and its score table is that of everything flushed so far |
| ResultRuns.BatchingIrrelevant | internal/core/result/manager.go:239-253 | for every such set, every way of cutting every stream from it gives the score table of one merge if and only if each of its scores is read back as it was |
| ResultRuns.PersistsIffNeverLowers | internal/core/result/manager.go:281-304 | for every such set, no flushed score ever worsens on file, on any stream from it and any batching, if and only if reading back lowers none |
| ResultRuns.StaysAbove | internal/core/result/manager.go:281-304 | for every lower bound that reading back respects on a set of records, everything flushed stays on file above its bound, in whatever order the file reads back |
| LatencyFormat.ScoreKept | internal/core/scanner/probe/icmpprobe/result.go:78-119 | exactly which latencies read back with their score, for every way a printed half may go |
| LatencyFormat.PrintedMeaning | internal/core/result/format.go:10-19 | a latency prints as whole microseconds, or the nearest hundredth of a millisecond or of a second |
| LatencyFormat.StoredMeaning | internal/core/scanner/probe/icmpprobe/result.go:86-119 | a latency reads back as the nearest millisecond of its text, and no less than one |
| LatencyFormat.ScoreMeaning | internal/core/scanner/probe/icmpprobe/result.go:78-84 | the score times the whole milliseconds, of which there is at least one, is 1000 |
| LatencyFormat.LatencySettles | internal/core/scanner/probe/icmpprobe/result.go:86-119 | formatting and parsing keep the key, and a record that was read back once keeps its score |
| LatencyFormat.LatencySeparatesTies | internal/core/result/format.go:10-19 | with the program's own formats, on measured results, neither order, nor scores, nor lower bounds survive, and the file does not stay ranked: 1.6 ms and 1.4 ms score alike and read back as 2 ms and 1 ms |
| LatencyFormat.RankedIffInOrder | internal/core/scanner/probe/icmpprobe/result.go:78-119 | on streams of any set of measured latencies, closed under reading back, the file stays ranked if and only if no latency that is smaller or equal in whole milliseconds reads back as a larger one |
| LatencyFormat.BestIffKept | internal/core/scanner/probe/icmpprobe/result.go:78-119 | on such streams every batching keeps the best scores if and only if each of the latencies keeps its score |
| LatencyFormat.RepeatedAddressDuplicates | internal/core/result/merger.go:107-174 | a run of two flushes after which the file holds a key twice and is out of order |
| LatencyFormat.FreshAddressUnranks | internal/core/result/merger.go:107-174 | a run of two flushes of three different keys after which the file is out of order |
| LatencyFormat.SurvivesIffKept | internal/core/scanner/probe/icmpprobe/result.go:78-119 | for every measured latency flushed alone: once any other addresses are flushed after it, its score is still on file if and only if the latency keeps it |
| LatencyFormat.KeptStream | internal/core/result/manager.go:281-304 | on streams whose latencies keep their scores the file is ranked and holds the best score of every key after each flush |
| LatencyFormat.RoundingLoses | internal/core/scanner/probe/icmpprobe/result.go:78-119 | two flushes after which a key that scored 1000 is on file with 500 |
| LatencyFormat.NeverPastCeiling | internal/core/result/manager.go:281-304 | on every stream of measured results and every batching, a result of m whole milliseconds stays on file with at most m + 1 below a second, and at most m or the next multiple of ten above |
| LatencyFormat.CeilingReached | internal/core/scanner/probe/icmpprobe/result.go:78-119 | for every m there is a latency that is on file with exactly that many |
| ResultWriter.NothingLostOrPanics | internal/core/result/manager.go:159-278 | in every interleaving of writes, close and the loop: no send on the closed channel; what Write was called with = accepted + dropped + still in a call; and accepted = queued + batched + flushed + failed |
| ResultWriter.OpenWriterAccepts | internal/core/result/manager.go:159-185 | in every interleaving only a closed or cancelled writer drops results, so before that every Write that has returned was accepted; queue and batch stay within their sizes, and an error comes from a failed flush that is not ignored |
| ResultWriter.NoNewCalls | internal/core/result/manager.go:164-167 | once cancelled, a writer takes no new call for the rest of the run |
| ResultWriter.CancelReaches | internal/core/result/manager.go:159-167 | an outside cancellation anywhere in a run leaves the writer cancelled at its end |
| ResultWriter.QueueDrained | internal/core/result/manager.go:231-278 | results leave the queue in order, and the last flush begins over an empty queue |
| ResultWriter.TimerFlushes | internal/core/result/manager.go:249-254 | the timer flushes whatever is batched; the flush can succeed, and then the batch counts as flushed and nothing else moves |
| ResultWriter.CloseKeepsBounds | internal/core/result/manager.go:188-262 | without outside cancellation and ignored errors, a nil Close means every accepted result was flushed, its key is on file, above every lower bound that reading back respects on the accepted results, and the file is ranked if it keeps their order |
| ResultWriter.CloseMeansPersisted | internal/core/result/manager.go:188-262 | so a nil Close means every accepted result's key is on file, with a score at least as high if reading back lowers none; and what Write was called with = flushed + dropped + still in a call |
| ResultWriter.WrittenIsPersisted | internal/core/result/manager.go:159-262 | whatever returned Write calls had written to a writer neither closed nor cancelled is on file after a later nil Close, with a score at least as high if reading back lowers none |
| ResultWriter.CloseKeepsLatency | internal/core/result/manager.go:188-262 | with the latency formats a nil Close means every accepted measured result is on file with at most m + 1 milliseconds below a second, and at most m or the next multiple of ten above |
| ResultWriter.NeverStuck | internal/core/result/manager.go:159-262 | while a call is under way some step that advances a call or the loop is enabled, with no reader let in while Close waits for the lock |
| ResultWriter.ForwardBounded | internal/core/result/manager.go:159-278 | in every interleaving the steps that advance a call or the loop are bounded by the work at its start and five for every new call, timer or cancellation |
| ResultWriter.CallsReturn | internal/core/result/manager.go:159-262 | from any reachable state, at most as many advancing steps follow as there is work left, and when none is enabled every call has returned |
| ResultWriter.StepKeeps | internal/core/result/manager.go:159-304 | every step keeps the safety invariant |
| ResultWriter.RunFileSound | internal/core/result/manager.go:281-304 | in every interleaving the keys of all flushed results stay on file, above every lower bound that reading back respects on the accepted results, and the file stays ranked if it keeps their order |
| PipelineSafety.StepChannels | internal/core/scanner/engine/chain.go:165-174 | a stage's channel closes only after all its workers left |
| PipelineSafety.StepSlots | internal/core/scanner/engine/stage.go:187-205 | every step keeps slot numbers consecutive, each claimed once, below the limit, and each held until reported |
| PipelineRuns.NoSendAfterClose | internal/core/scanner/engine/chain.go:159-175 | in every run nothing is sent on a closed stage channel |
| PipelineRuns.LimitHonoured | internal/core/scanner/engine/stage.go:133-205 | in every run slots 1..succeeded are claimed once each, and neither claims nor reports pass the limit |
| PipelineLimit.LimitEndsRun | internal/core/scanner/engine/stage.go:178-182 | in every run that starts with slots left, once the last slot's result is reported the scan is cancelled; in batch mode a worker of the last stage has left |
| PipelineLimit.NoNewProbes | internal/core/scanner/engine/stage.go:133-136 | once the slots are gone, no worker of the last stage begins a probe for the rest of the run |
| PipelineLimit.ChannelsBounded | internal/core/scanner/engine/chain.go:130-177 | in every run no channel holds more than its capacity |
| PipelineLimit.StepInOrder | internal/core/scanner/engine/chain.go:442-464 | channels are first in, first out: an address leaves only from the front, to a worker that then holds it, and joins only at the end |
| PipelineFlow.StepTotal | internal/core/scanner/engine/chain.go:442-464 | every lossless step conserves, for each address and stage, successes past and still owed |
| PipelineFlow.StepNoGain | internal/core/scanner/engine/worker.go:114-136 | no step at all, cancelled or failing, makes an address owed or reported anew |
| PipelineFlow.LossesNeedFull | internal/core/scanner/engine/chain.go:67-78 | without disturbance from outside, nothing is dropped before the last result slot is gone |
| PipelineRuns.OnlySurvivors | internal/core/scanner/engine/chain.go:442-464 | in every run a stage succeeds only on addresses that pass it and all earlier stages, and never more often than the input holds them |
| PipelineRuns.SurvivorsMeaning | internal/core/scanner/engine/chain.go:442-464 | the survivors are the input addresses, as often as given, that the predicates of all stages so far accept |
| PipelineRuns.ExactSuccesses | internal/core/scanner/engine/chain.go:130-177 | in every undisturbed run that did not fill the result list, each stage's successes are exactly the filtered input |
| PipelineRuns.ResultCount | internal/core/scanner/engine/stage.go:158-182 | with a limit, an undisturbed run ends with exactly min(slots left, survivors) results |
| PipelineMeasure.StepDrops | internal/core/scanner/engine/chain.go:442-464 | every step lowers a measure of the hops still to go |
| PipelineMeasure.RunsAreFinite | internal/core/scanner/engine/chain.go:130-177 | every run, under any scheduling and cancellation, is bounded by the measure of its start |
| PipelineProgress.NeverStuck | internal/core/scanner/engine/worker.go:92-136 | short of the end some step other than an outside cancellation is enabled, for all worker counts, capacities, limits and cancellation points |
| PipelineProgress.EveryMaximalRunFinishes | internal/core/scanner/engine/chain.go:177 | a run that cannot go on has every pool waited for and every channel closed |
| BatchMode.StreamBatches | internal/core/scanner/engine/chain.go:326-346 | the batches are the input in order, all full but the last, none empty |
| BatchMode.CalmPass | internal/core/scanner/engine/chain.go:381-413 | one stage's pool hands on what is still to be found of the batch |
| BatchMode.BatchFinds | internal/core/scanner/engine/chain.go:357-377 | a batch finds exactly its survivors, or as many as there are slots |
| BatchMode.PoolNeverCancels | internal/core/scanner/engine/chain.go:381-413 | the workers of a batch pool never cancel the scan themselves |
| BatchMode.CrewSize | internal/core/scanner/engine/chain.go:381-413 | a stage's pool has as many workers as the stage |
| BatchMode.BatchModeExact | internal/core/scanner/engine/chain.go:186-207 | for every batch size the batch mode finds the streaming mode's survivors, as a multiset; with a limit, min(limit, survivors) of them |
| BatchMode.BatchModeWithin | internal/core/scanner/engine/chain.go:186-207 | whatever is cancelled or fails, in any pool or between them, the whole batch scan finds only survivors, none more often than the input holds it, and with a limit never more than that many |
| TopTable.InsertMerge | internal/ui/components/scanner/stage.go:194-217 | inserting into a merge is merging an insertion |
| TopTable.SortMerge | internal/ui/components/scanner/stage.go:174-187 | merging two stably sorted lists stably sorts the whole |
| TopTable.MergeTake | internal/ui/components/scanner/stage.go:176-178 | cutting both lists at the limit does not change the cut merge |
| TopTable.NothingEnters | internal/ui/components/scanner/stage.go:180-185 | when the early exit fires the merge would change nothing |
| TopTable.AbsorbTop | internal/ui/components/scanner/stage.go:160-187 | one merge turns the table of the rows so far into the table of all, despite cut and early exit |
| TopTable.TopMeaning | internal/ui/components/scanner/stage.go:160-192 | the table shows min(limit, rows) of the rows received, in order, and no row left out comes before one shown |
| TopTable.BatchingIrrelevant | internal/ui/components/scanner/stage.go:160-187 | every batching of the arrivals gives the same table |
| TopTable.MergeSorted | internal/ui/components/scanner/stage.go:196-217 | the two-index loop is the merge with ties from the first list, cut at the limit |
| TopTable.MergeRows | internal/ui/components/scanner/stage.go:175-187 | cut, early exit and merge of one sorted batch |
| TopTable.SortedRows | internal/ui/components/scanner/stage.go:166-175 | each result of the batch replaced by what its record parses to where it parses, then stably sorted in place |
| TopTable.ScanStage.OnEngineSuccess | internal/ui/components/scanner/stage.go:119-123 | a result joins the batch; table and merged rows are untouched |
| TopTable.ScanStage.TakeBatch | internal/ui/components/scanner/stage.go:151-157 | hands over the batch and leaves an empty one |
| TopTable.ScanStage.MergeTaken | internal/ui/components/scanner/stage.go:160-187 | keeps the table equal to the first rows of the stable sort of everything merged and normalized, whatever the workers appended meanwhile |
| TopTable.ScanStage.ShownRows | internal/ui/components/scanner/stage.go:166-187 | between merges the table is the top of the merged results, each replaced by what its record parses to where it parses, and every row shown is one of those |
| TopTable.ScanStage.MergeBatch | internal/ui/components/scanner/stage.go:160-192 | afterwards the table is the first maxIPs rows of all arrivals in stable order, each as its record parses to where it parses, and every row shown is one of those |
| TextLines.JoinedLines | internal/core/fileutil/sort.go:156-160 | lines written one per row read back as those lines |
| TextLines.PiecesJoined | internal/core/fileutil/sort.go:56 | splitting at newlines loses nothing: the pieces hold no newline and join to the text |
| TextLines.TrimmedEnd | internal/core/fileutil/sort.go:56 | trimming removes exactly the newlines at the end |
| TextLines.DropOneCR | internal/core/fileutil/sort.go:108-114 | reading a line drops one carriage return from its end, and nothing else |
| TextLines.RawAgainstTrimmed | internal/core/fileutil/sort.go:56 | scanning and trimmed splitting see the same lines except in an empty file and after trailing blank lines |
| ExternalSort.SortedUnique | internal/core/fileutil/sort.go:57 | a list of strings has one sorted order |
| ExternalSort.SortInMemory | internal/core/fileutil/sort.go:46-78 | the lines written are a permutation of the trimmed pieces, each equal to the next or before it byte by byte |
| ExternalSort.SplitAndSort | internal/core/fileutil/sort.go:97-141 | for any chunk size: sorted chunks, full but the last, together a permutation of the lines |
| ExternalSort.PopMin | internal/core/fileutil/sort.go:172-178 | takes out some least item |
| ExternalSort.MergeReaders | internal/core/fileutil/sort.go:187-226 | writes all lines of all readers, in order if every reader is in order |
| ExternalSort.ReReadChunk | internal/core/fileutil/sort.go:193-196 | a chunk read back never grows, and is intact exactly when every line is short and has no trailing carriage return |
| ExternalSort.MergedOutput | internal/core/fileutil/sort.go:180-229 | the merged output is the sorted lines if and only if every line is intact when read back |
| ExternalSort.SortExternal | internal/core/fileutil/sort.go:80-95 | fails exactly on a line too long for the first scanner, writes the scanned lines in byte order exactly when all survive the second, and equals the sort in memory exactly on plain files |
| ExternalSort.CarriageReturnLost | internal/core/fileutil/sort.go:16-38 | of every size above the threshold of the sort in memory there is a file that the two ways sort differently, and one whose scanned lines are not all written: a first line ends in one carriage return, or in two |
| PortPool.StepInv | internal/core/scanner/portmgr/portmgr.go:66-117 | every step keeps the port count, drops no push, and keeps ports distinct and in range until the range is used up |
| PortPool.PortsConserved | internal/core/scanner/portmgr/portmgr.go:66-117 | in every interleaving pooled + in-hand + leased ports equal count while open, never exceed it after, and no push finds the pool full |
| PortPool.NoDoubleLease | internal/core/scanner/portmgr/portmgr.go:182-192 | until 49152 - (start + count) replacements, leased ports are distinct, inside the range, and neither pooled nor in hand |
| PortPool.OneMoreLeasesTwice | internal/core/scanner/portmgr/portmgr.go:186-189 | for every range with two ports or more, a run with one replacement more leases a port twice at once |
| PortPool.InitialPortsInRange | internal/core/scanner/portmgr/portmgr.go:43-61 | the constructor's ports are below 49152 if and only if start + count is at most 49152 |
| PortPool.RandomBaseFits | internal/core/scanner/portmgr/portmgr.go:145-149 | the draw is defined and every range it gives fits, if and only if the size is below 29152 |
| PortPool.DrawsDistinct | internal/core/scanner/portmgr/portmgr.go:145-149 | for those sizes there are 29152 - size draws, a draw is added to port 20000, and distinct draws give distinct bases |
| Jsonc.CleanJSONC | internal/core/xray/extra.go:63-118 | the nested loops compute the one-pass mode automaton's output, or its failure |
| Jsonc.SameLineNumber | internal/core/xray/extra.go:59-62 | every kept byte is preceded by as many newlines as in the source |
| Jsonc.LiteralVerbatim | internal/core/xray/extra.go:71-83 | string literals are copied byte for byte |
| Jsonc.LiteralEndsAtQuote | internal/core/xray/extra.go:73-81 | from its opening quote a literal ends at position j if and only if j is the first quote behind an even number of backslashes |
| Jsonc.FailsIffUnterminated | internal/core/xray/extra.go:98-108 | cleaning fails if and only if a block comment opens outside literals and comments and is never closed |
| Jsonc.BlockLeavesSpace | internal/core/xray/extra.go:98-110 | a block comment ends at the first closing bytes behind its opening and leaves its newlines and then one space |
| Jsonc.LineLeavesNothing | internal/core/xray/extra.go:90-96 | a line comment leaves nothing and ends before its newline, which stays |
| Jsonc.OutputCommentFree | internal/core/xray/extra.go:59-62 | the cleaned text holds no comment |
| Jsonc.CommentFreeUnchanged | internal/core/xray/extra.go:112-113 | text without comments is left alone |
| Jsonc.NoOpeningUnchanged | internal/core/xray/extra.go:85-113 | text in which no slash is followed by a slash or a star is left alone |
| Jsonc.CleaningAgain | internal/core/xray/extra.go:64 | cleaning again is the identity if and only if the cleaned text does not begin with a byte-order mark |
| Jsonc.SecondMarkDropped | internal/core/xray/extra.go:64 | two byte-order marks are an input on which it is not |
| HostPort.AtoiItoa | internal/core/xray/outbound.go:175-180 | a decimal list index in a path is read back as itself |
| HostPort.ItoaPlaces | internal/core/xray/outbound.go:151 | a port number prints as its decimal digits |
| HostPort.AtoiSigned | internal/core/xray/outbound.go:175-180 | an index may carry a sign |
| HostPort.SplitMeaning | internal/core/xray/outbound.go:154-156 | an endpoint splits into host and port exactly if it is the one joined by a colon, in brackets or not |
| HostPort.SplitJoined | internal/core/xray/outbound.go:150-156 | the host and the port of a joined text are those it was joined from |
| Outbound.OutboundAddressLocations | internal/core/xray/outbound.go:36-99 | the listing loops give the location list, or refuse |
| OutboundTargets.AcceptedExactly | internal/core/xray/outbound.go:36-99 | an outbound is accepted if and only if it is a proxy with a server address at some place, and exactly those places are listed |
| OutboundTargets.ReplacedParts | internal/core/xray/outbound.go:148-165 | a rewritten endpoint splits into the new host and the new port, or the old one for port 0; without an old one it is the bare host |
| OutboundSteps.SetEntry | internal/core/xray/outbound.go:126-168 | setting one listed entry changes that entry's object only |
| OutboundRewrite.RewriteAll | internal/core/xray/outbound.go:106-123 | on every accepted outbound no listed location fails, the result is the reference rewrite, and the location list is preserved |
| OutboundRewrite.EveryLocationTargeted | internal/core/xray/outbound.go:148-165 | every listed address becomes the target address, in an endpoint with the target port or for port 0 the old one, and a port beside it the target port unless that is 0 |
| OutboundRewrite.RestUntouched | internal/core/xray/outbound.go:126-168 | every path not above or below a listed address or written port leads to what it led to |
| OutboundRewrite.SecondRewriteWins | internal/core/xray/outbound.go:148-165 | rewriting twice is rewriting once with the second address and the last nonzero port |
| OutboundRewrite.WriteAddress | internal/core/xray/outbound.go:148-165 | the branches leave the object with its address replaced by the new one, alone or with its port, a nonzero port beside it, and all other keys as they were |
| OutboundRewrite.Template.SetAddressAt | internal/core/xray/outbound.go:126-168 | follows the path, refuses a malformed one without a change, and otherwise replaces the text it leads to, leaving the set tree |
| OutboundRewrite.Template.SetOutboundAddress | internal/core/xray/outbound.go:106-123 | refuses an invalid address or an outbound without locations without a change, and otherwise targets every place that names a server, leaving the reference rewrite |

## Left out

- PipelineRuns.ExactSuccesses: which error a pool returns is not modelled, because its watcher may see the error or the end first; addresses, counts and channels are.
- PipelineRuns.ResultCount: a cancellation or a fatal write before the last slot is claimed is excluded; under those OnlySurvivors and LimitHonoured still hold.
- BatchMode.BatchModeExact: a batch whose pool is cut short before the last slot is claimed is excluded in the same way; under those BatchModeWithin still holds.
- ResultWriter.CloseMeansPersisted: promises scores only for formats that never lower one, because with the program's own formats that is false (LatencyFormat.RoundingLoses; CloseKeepsLatency says how far they can fall); keys are promised for all. Outside cancellation is excluded because a send may win after the final drain.
- ExternalSort.PopMin: the heap is any structure that pops a least item; sift operations of the library are not part of this model.
- OutboundRewrite.Template.SetAddressAt: the tree is a value in one field, so the write goes back up the path it came; sharing between nested objects cannot arise from decoding and is not modelled, nor is the dynamic type of a number.
- Sequential mode between stages: each stage is a one-stage pipeline run, its input the previous stage's result file, which holds each address once.
- IP-list files are parsed rows and an entry's offset is its row number; text parsing, CSV quoting, rows with three or more columns and IPv4-mapped IPv6 text are not modelled.
- A read error at an indexed single host is modelled as the branch that skips it, which is never taken because the file does not change during a run.
- LatencyFormat: durations are naturals of nanoseconds; the two decimals of a printed number are the nearest ones, an exact half may go either way. Only latency scores are modelled in full; other record kinds are any function from a record to what is read back.
- Result files are record sequences; records that do not parse, CSV quoting, temporary files, rename and sync are taken as a flush that succeeds or leaves the file as it was.
- The pause controller is a gate that is always open; rate limits, probe durations, progress figures and flush timers are timing only, and a timer may fire at any step.
- Probes are one fixed predicate per stage and address; probe errors and their counters are not distinguished.
- Context checks between lines of the file sorts, and errors of their temporary files.
- WaitOpen and GenerateInstanceRange of the port manager, and whether a port is free: a free choice of the step.
- Decoding and encoding of JSON, template files, sharing links and the other fields of an outbound.
- Config validation, rendering, themes, dialogs, DNS, SOCKS, SSH and Xray services: network, foreign or single-branch code.
