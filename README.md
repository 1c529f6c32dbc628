# BFT-MVBA: a Dafny model of the benchmark analyser and the consensus components

This project models two parts of the BFT-MVBA repository, a benchmark suite for
several multi-valued Byzantine agreement protocols (MVBA, VABA, sMVBA, parallel MVBA,
Mercury). It proves properties of that model.

**The benchmark log analyser and its helpers (Python).**
- `Logs` (`benchmark/benchmark/logs.py`): `LogParser` reads every node's log. For each node it builds three tables from batch id to timestamp (batch arrivals, block proposals, block commits) and a configuration snapshot. It then merges the per-node tables and computes consensus and end-to-end throughput and latency.
- `BenchConfig` (`benchmark/benchmark/config.py`): the bench and node parameter records and the committee table.
- `Paths` (`benchmark/benchmark/utils.py`): `PathMaker`'s file names and the progress-bar arithmetic.
- `CloudSettings` (`benchmark/alibaba/settings.py`): validation and loading of the testbed settings.
- `PyJson` and `Text`: the decoded JSON values and the Python conversions (`int(...)`, `isinstance`, decimal text) these scripts rely on.

**The consensus node's sequential components (Go).**
- `Committee` and `GoInt` (`core/config.go`): the committee and its quorum thresholds, with Go's truncating division.
- `Pool` (`pool/pool.go`): the transaction queue that numbers batches.
- The three commit buffers:
  - `MvbaCommitor`, with the generic in-order release in `InOrder`;
  - `VabaCommitor`;
  - `MercuryCommitor`, with its reference expansion and batch-id deduplication.
- The vote, finish, done and coin aggregators:
  - `MvbaAggregator`;
  - `ParMvbaAggregator`;
  - `VabaAggregator`;
  - `SmvbaAggregator`.
- The leader electors: `MvbaElector`, `VabaElector` and `ParMvbaElector`.
- The per-instance state machines, fed one message at a time:
  - `MvbaAba`, the binary agreement;
  - `MvbaCbc`, consistent broadcast;
  - `SmvbaSpb`, strong provable broadcast;
  - `VabaPromote`, the four-phase promotion.
- The `Hash` preimages of every message type: `MvbaMessage`, `VabaMessage` and `MercuryMessage`, built on `Bytes`.
- `Crypto` (`crypto/crypto.go`): the buffering hasher and the hexadecimal key codec.
- `Logger` (`logger/logger.go`): the level-mask routing.

**How the model is shaped.**
- Code that updates state in place is a class whose methods change its fields:
  - the Go components;
  - `_merge_results`;
  - `_build_consensus`;
  - `progress_bar`'s loop.
- Each such method states its new state in terms of a specification function. The properties are proved about that function, as lemmas and as preserved invariants (`Valid()`).
- A replay of held messages gives its output as a fold of the per-message rule over the held list: `MvbaCbc.ReadyFinals` and `MvbaCbc.FinalReports`, `SmvbaSpb.SPB.LockVotes` and `SmvbaSpb.SPB.QuorumEvents`, `VabaPromote.Promote.AdvanceVotes` and `VabaPromote.Promote.DoneEvents`.
- Every message a component sends is appended to an output sequence `out`. A generic "emitted at most once per key" predicate (`Emitted.Once`) carries the at-most-once guarantees:
  - one Final per CBC instance;
  - one report to the core;
  - one ABAMux per in-round;
  - one ABA_HALT report;
  - one phase-two proposal and one Finish per SPB.
- Channels into a consumer goroutine are sequences that the consumer method drains.

**Behaviour modelled as the code is written.** Several of these components do not do what their comments or names suggest. The model follows the code, and proves each consequence:
- `_merge_results` keeps the largest timestamp per batch id, although its comment says it keeps the earliest (`Logs.MergeIsMax`).
- A fractional `nodes` entry below one passes the positivity check and becomes 0 (`BenchConfig.FractionalNodesBecomeZero`).
- `txSize` is never assigned in `newTxQueue`, so every transaction is empty.
- The pool's "full" test compares with a read index that stays -1, so it never fires.
- The batch count is never reset, so once it reaches the batch size every further transaction makes a batch (`Pool.EveryTxMakesOnceFull`).
- Both `addVote` in core/mvba/consensus/aggreator.go and `addSkipVote` in core/vaba/consensus/aggreator.go store a new bucket under the wrong key:
  - MVBA stores it under the vote's round instead of its epoch;
  - VABA stores it in the done map instead of the skip map.
  The stored vote is thus lost, and `VabaAggregator.Aggreator.AddSkipVote` never reports a skip quorum in a committee of four or more.
- `AddFinishVote` in the parallel MVBA and sMVBA aggregators sends the first vote for a new slot to an aggregator that is never stored. From an empty table, sMVBA's reports a quorum only when HightThreshold is 1.
- The VABA election aggregator tests the combine error the wrong way round:
  - a successful combine returns NONE;
  - a failed one panics indexing the missing coin.
  No VABA leader is ever elected.
- The MVBA elector's and coin aggregator's `used` sets are never written, so their duplicate checks never fire.
- A coin share for a new round of an already known epoch writes into a missing inner map and panics (`MvbaAggregator.Aggreator.AddCoinShare`).
- ABA's `ProcessCoin` still broadcasts after the instance halted.
- In VABA's promotion:
  - reaching the quorum of a phase below four builds a proposal with a nil block, whose digest panics;
  - the held messages are replayed but never cleared;
  - a repeated phase-one proposal resets the block hash.
- SPB panics on a phase-one proposal without a block.
- Several message digests do not cover all of their fields:
  - MVBA's `Commitment` digest leaves out the commitment vector;
  - the election-share and coin-share digests leave out the author;
  - Mercury's `Block` digest leaves out the references;
  - the `Prevote`/`FinVote` digests leave out `Try`;
  - the `Halt` digest leaves out the round;
  - VABA's `ViewChange` digest leaves out the epoch and the block hash.
- The base-2 numerals in the MVBA block preimage are not separated, so two different blocks can share a preimage (`MvbaMessage.BlockPreimageNotInjective`).
- Mercury's `NewFinVote` drops its `Leader` argument.

**Inputs.** The I/O and foreign libraries are inputs to the model:
- SHA-256 is a function parameter `sha`, and each `Hash` method is modelled as the byte string it feeds to the hasher.
- Threshold signature combination is a parameter returning the coin bytes or a failure.
- Go's `math/rand` generator is a parameter `prng(seed, k)`.
- The block store and block decoding are an input map and an input function.
- The analyser's regular expressions and `strptime` are abstract line matchers.
- Whether an epoch was skipped (VABA) is a method argument.

## Model

| member | source | states |
|---|---|---|
| Logs.Insert | benchmark/benchmark/logs.py:42-43 | storing a pair adds its key and keeps the larger value for a key already present |
| Logs.MergeResults | benchmark/benchmark/logs.py:37-44 | the nested loop of `_merge_results` yields the merge table, which holds the largest value per key over all pairs |
| Logs.InsertIsMax | benchmark/benchmark/logs.py:42-43 | one insert keeps "largest value per key" for the pairs seen so far plus the new pair |
| Logs.FoldIsMax | benchmark/benchmark/logs.py:41-43 | inserting a list of pairs keeps "largest value per key" for all pairs seen |
| Logs.MergeIsMax | benchmark/benchmark/logs.py:37-44 | the merged table is the table of maxima of every pair of every list (the comment on line 38 says earliest; the code keeps the largest) |
| Logs.MaxTableUnique | benchmark/benchmark/logs.py:37-44 | a set of pairs has exactly one table of maxima |
| Logs.MergeOrderFree | benchmark/benchmark/logs.py:37-44 | the merge depends only on the set of pairs, not on list order, pair order or repeats |
| Logs.MergeIdempotent | benchmark/benchmark/logs.py:32-34 | merging the items of an already merged table again changes nothing |
| Logs.Latest | benchmark/benchmark/logs.py:51 | the batch dict comprehension has exactly the ids of the captures as keys |
| Logs.LatestIsLast | benchmark/benchmark/logs.py:51 | each batch entry is the time of the last capture with that id |
| Logs.Matches | benchmark/benchmark/logs.py:50-57 | `findall` returns at most one capture per line, each the capture of some line |
| Logs.Stamped | benchmark/benchmark/logs.py:51-58 | the captures with times converted, id first, or failure exactly when some time fails to convert |
| Logs.FirstNumber | benchmark/benchmark/logs.py:63-76 | `search(...).group(1)` is the number of the first matching line; None exactly when no line matches |
| Logs.ParseNode | benchmark/benchmark/logs.py:46-80 | a log with `panic` or a bad time raises ParseError; a missing config line raises AttributeError and nothing else; the config numbers are the first matches |
| Logs.ParsedNodeTables | benchmark/benchmark/logs.py:50-59 | a parsed node's proposal and commit tables hold the largest time per id and its batch table the last time per id |
| Logs.MergeOneIsMax | benchmark/benchmark/logs.py:55-59 | merging a single list gives its table of maxima |
| Logs.Collect | benchmark/benchmark/logs.py:27-30 | all node results in order, or the error of the first failing node in order, one of the outcomes `Pool.map` can give |
| Logs.ParseNodes | benchmark/benchmark/logs.py:28 | one parse result per node log, in order |
| Logs.Items | benchmark/benchmark/logs.py:32-34 | `dict.items()` lists exactly the table's pairs |
| Logs.Parse | benchmark/benchmark/logs.py:16-35 | no logs raise ValueError; an error is some node's error; on success the batch, proposal and commit tables each map every batch id any node saw to the largest time any node gave it, and the config is the first node's |
| Logs.KindItemsPairs | benchmark/benchmark/logs.py:31-33 | the `.items()` lists of one table kind hold exactly the entries of every node's table of that kind |
| Logs.PanicFails | benchmark/benchmark/logs.py:47-48 | one panicking node fails the whole analysis |
| Logs.ParsedCommitsCover | benchmark/benchmark/logs.py:33 | every node's commit id is in the merged table with a time no earlier than that node's |
| Logs.MinOver | benchmark/benchmark/logs.py:92 | `min` over the values is attained and is a lower bound |
| Logs.MaxOver | benchmark/benchmark/logs.py:92 | `max` over the values is attained and is an upper bound |
| Logs.ScaledIsProduct | benchmark/benchmark/logs.py:99 | adding a value n times is n times the value |
| Logs.SumDiffBounds | benchmark/benchmark/logs.py:98 | a sum of differences each within [lo, hi] lies between n·lo and n·hi |
| Logs.Latency | benchmark/benchmark/logs.py:97-99 | the latency is 0 when no commit has a start time |
| Logs.LatencyBetween | benchmark/benchmark/logs.py:97-99 | the mean latency lies between the smallest and largest per-id delay (both latency functions) |
| Logs.Throughput | benchmark/benchmark/logs.py:89-95 | The result is (0, 0) when there are no commits, ValueError when there are commits but no starts, ZeroDivisionError exactly when the time from the earliest start to the latest commit is zero, and otherwise that time as the duration together with a tps whose product with the duration is the commit count times the batch size. |
| Logs.ThroughputPositive | benchmark/benchmark/logs.py:89-95 | When there are commits and starts and every commit time is later than every start time, the result is not an error, its duration is positive and its tps is not negative. |
| Logs.Result | benchmark/benchmark/logs.py:116-123 | the summary numbers: latencies in ms, both throughputs, the end-to-end duration, the config; an error of either throughput is raised, the consensus one first |
| PyJson.Get | benchmark/benchmark/config.py:106 | `json[key]` succeeds exactly for a dict holding the key; a KeyError exactly when a dict lacks it |
| PyJson.Get2 | benchmark/benchmark/config.py:76-83 | `json[a][b]` succeeds exactly when both lookups do, with the inner value |
| PyJson.AsList | benchmark/benchmark/config.py:107 | a list is kept, any other value becomes a list of one |
| PyJson.IntOf | benchmark/benchmark/config.py:93-94 | `int(...)` raises TypeError exactly for null, lists and dicts; numbers are truncated toward zero |
| PyJson.IntOfText | benchmark/benchmark/config.py:117 | `int` reads back the decimal text of every integer |
| PyJson.IntsOf | benchmark/benchmark/config.py:116 | the list comprehension of `int` succeeds exactly when every element converts, element by element; otherwise the error of some element |
| BenchConfig.BenchCatch | benchmark/benchmark/config.py:125-129 | KeyError becomes "missing key" with the same key, ValueError "invalid type", TypeError escapes, success is untouched |
| BenchConfig.AnyNonPositive | benchmark/benchmark/config.py:108 | false exactly when every node count is a positive number; true only with a count that is not positive; TypeError only when some value is not a number |
| BenchConfig.IntField | benchmark/benchmark/config.py:117-120 | `int(json[key])` succeeds exactly when the key is there and converts |
| BenchConfig.OptionalIntField | benchmark/benchmark/config.py:121-122 | a missing optional key gives 1, a present one its conversion |
| BenchConfig.ParseBench | benchmark/benchmark/config.py:104-129 | on success every required key is present; the node list is non-empty, every entry a positive number truncated to int; the batch sizes are non-empty and are `int` of the listed values; log level, rate and duration are `int` of their entries and the protocol is its entry as given; `runs` and `node_instance` are `int` of their entries, or 1 when missing; only a TypeError escapes uncaught |
| BenchConfig.BenchMissingKey | benchmark/benchmark/config.py:125-126 | a missing-key error names a required key the document lacks, and a document with every required key never gives one |
| BenchConfig.BenchWellFormed | benchmark/benchmark/config.py:104-123 | a document of integers with a positive node count yields exactly its values |
| BenchConfig.FractionalNodesBecomeZero | benchmark/benchmark/config.py:108-116 | a node count of 0.5 passes the positivity check and becomes 0 |
| BenchConfig.LookupAll | benchmark/benchmark/config.py:75-83 | the eight lookups succeed exactly when each does; otherwise the error is one of a lookup |
| BenchConfig.LookupAllFound | benchmark/benchmark/config.py:75-83 | the lookups all succeed exactly when every consensus and pool key is present |
| BenchConfig.ParseNode | benchmark/benchmark/config.py:73-95 | success exactly with every key and convertible `faults` and `tx_size`, holding their int values and the document; a ConfigError only for a missing key; a ValueError only after every key was found |
| BenchConfig.BuildConsensus | benchmark/benchmark/config.py:48-52 | the loop over `zip` builds the table of the first min-length triples, a later id overwriting an earlier |
| BenchConfig.TableEntries | benchmark/benchmark/config.py:48-52 | the table's keys are the zipped ids, and each id maps to the name and address of its last occurrence |
| BenchConfig.TableSize | benchmark/benchmark/config.py:59-60 | the size is at most the number of triples, and equal to it when the ids are distinct |
| BenchConfig.NewCommittee | benchmark/benchmark/config.py:36-46 | needs equal key and address counts; stores the lists and the table; with enough distinct ids the size is the number of keys |
| BenchConfig.LocalAddrs | benchmark/benchmark/config.py:68 | one address per key |
| BenchConfig.LocalAddrsDistinct | benchmark/benchmark/config.py:68 | two local nodes never share an address |
| BenchConfig.NewLocalCommittee | benchmark/benchmark/config.py:64-69 | node i listens on `127.0.0.1:` and port + i, and the table is built from those addresses |
| CloudSettings.NewSettings | benchmark/alibaba/settings.py:9-30 | success exactly when the names and every region are strings, the port an int and there is a region; any failure is "invalid types"; the fields keep the given values |
| CloudSettings.SingleRegion | benchmark/alibaba/settings.py:17-18 | a single region string becomes a list of one region |
| CloudSettings.LookupAll | benchmark/alibaba/settings.py:37-45 | the six values in order exactly when every lookup succeeds; otherwise the error of some lookup |
| CloudSettings.Load | benchmark/alibaba/settings.py:32-50 | an unreadable file is a SettingsError; the found values go to the constructor; a "malformed" error names a key some lookup lacked; only a TypeError escapes |
| CloudSettings.Get2Errors | benchmark/alibaba/settings.py:37-50 | a nested lookup raises only KeyError or TypeError |
| CloudSettings.DocLookups | benchmark/alibaba/settings.py:37-45 | every lookup finds its value in a complete settings document |
| CloudSettings.LoadWellFormed | benchmark/alibaba/settings.py:32-50 | a complete, well-typed settings document loads to exactly its values |
| Paths.DirPrefix | benchmark/benchmark/utils.py:48 | `os.path.join` adds one separator after a directory that lacks one and keeps the directory as a prefix |
| Paths.JoinInjective | benchmark/benchmark/utils.py:46-74 | joining distinct names onto one directory gives distinct paths |
| Paths.KeyFilesInjective | benchmark/benchmark/utils.py:25-38 | distinct nodes get distinct key files, threshold key files and store paths |
| Paths.InfoFileGlobbed | benchmark/benchmark/utils.py:45-48 | node i's info log lies in the run's log directory, under a name matching the `node-info-*.log` pattern the parser globs (logs.py line 158) |
| Paths.InfoFileInjective | benchmark/benchmark/utils.py:45-48 | no two nodes share an info log |
| Paths.DashedInjective | benchmark/benchmark/utils.py:73 | dash-separated non-negative numerals followed by non-digit text can be read back |
| Paths.BenchNameInjective | benchmark/benchmark/utils.py:73 | the `bench-...txt` name tells its non-negative parameters apart |
| Paths.ResultFileInjective | benchmark/benchmark/utils.py:70-74 | runs with different non-negative parameters in one directory write different result files |
| Paths.Bar | benchmark/benchmark/utils.py:120-125 | a bar exists exactly when the iterable is not empty (an empty one raises ZeroDivisionError) |
| Paths.BarShape | benchmark/benchmark/utils.py:123-124 | for an iteration within the total the bar is `length` characters, `length * iteration // total` of them fill |
| Paths.BarGrows | benchmark/benchmark/utils.py:123 | the filled part never shrinks as the iteration advances |
| Paths.ProgressBar | benchmark/benchmark/utils.py:117-131 | fails exactly on an empty iterable; otherwise yields every item unchanged and draws one bar before the first and one after each |
| GoInt.Quot | core/config.go:79-88 | Go's signed `/`: the remainder has the sign of the dividend and is smaller than the divisor in size |
| Committee.Size | core/config.go:54-56 | zero exactly for an empty committee |
| Committee.HightThreshold | core/config.go:78-82 | between 1 and n for a non-empty committee, 1 for an empty one |
| Committee.LowThreshold | core/config.go:84-88 | between 1 and the high threshold for a non-empty committee |
| Committee.ThresholdsAreQuorums | core/config.go:78-88 | with f the largest integer such that 3f+1 <= n, the thresholds are 2f+1 and f+1 |
| Committee.QuorumIntersection | core/config.go:78-88 | for n = 3f+1 two high-threshold sets share at least f+1 members, hence a correct one |
| Committee.Name | core/config.go:58-61 | the authority's key, or the zero key for an unknown id |
| Committee.Address | core/config.go:63-66 | the authority's address, or "" for an unknown id |
| Committee.ID | core/config.go:45-52 | an id whose authority has the key when there is one; NONE exactly when none has it |
| Committee.BroadCast | core/config.go:68-76 | every other authority's address, each as often as the authorities holding it (map order unspecified) |
| Crypto.Hasher.constructor | crypto/crypto.go:27-31 | a new hasher has an empty buffer |
| Crypto.Hasher.Add | crypto/crypto.go:33-36 | appends to the buffer and returns the same hasher |
| Crypto.Hasher.Sum256 | crypto/crypto.go:38-43 | hashes the buffer followed by the argument, then empties the buffer |
| Crypto.SumTwice | crypto/crypto.go:38-43 | a second sum hashes only its own argument |
| Crypto.VerifyShare | crypto/crypto.go:72-74 | a signature share is accepted whatever it is and whatever digest it is checked against |
| Crypto.HexValueOfDigit | crypto/crypto.go:345 | each hex digit written reads back as its nibble |
| Crypto.EncodeHex | crypto/crypto.go:343-347 | two lower-case hex digits per byte |
| Crypto.DecodeHex | crypto/crypto.go:349-352 | on success the input has even length and the output half of it |
| Crypto.DecodeEncodeHex | crypto/crypto.go:343-358 | decoding the encoding of any bytes gives them back |
| Crypto.EncodeOfDecodeHex | crypto/crypto.go:343-358 | encoding what was decoded from lower-case text gives the text back |
| Crypto.EncodePublicKey | crypto/crypto.go:343-347 | twice the key's length, decoding back to the key |
| Crypto.DecodePublicKey | crypto/crypto.go:349-358 | an error exactly when the text is not valid hex, and then the zero key; otherwise a key that encodes back to lower-case input |
| Crypto.EncodePrivateKey | crypto/crypto.go:360-364 | twice the key's length, decoding back to the key |
| Crypto.DecodePrivateKey | crypto/crypto.go:366-375 | an error exactly when the text is not valid hex, and then the zero key; otherwise a key that encodes back to lower-case input |
| Crypto.PublicKeyRoundTrip | crypto/crypto_test.go:16-24 | decoding an encoded public key gives it back without error |
| Crypto.PrivateKeyRoundTrip | crypto/crypto_test.go:16-28 | decoding an encoded private key gives it back without error |
| Logger.Bit | logger/logger.go:41 | `(level >> i) & 1` is 0 or 1 |
| Logger.LevelConstants | logger/logger.go:11-16 | each level constant enables exactly its own logger |
| Logger.DeployAndTestLevels | logger/logger.go:18-21 | DeployLevel enables every logger but debug; TestLevel enables all four |
| Logger.HighBitsIgnored | logger/logger.go:39-47 | bits at position LevelNum and above never change the routing |
| Logger.Loggers.constructor | logger/logger.go:30-37 | all four loggers start writing to standard output |
| Logger.Loggers.SetLevel | logger/logger.go:39-47 | each logger writes to its recorded output when its bit is set and is discarded otherwise; the recorded outputs do not change |
| Logger.Loggers.SetOutput | logger/logger.go:49-56 | the loggers whose bit is set, and their recorded outputs, switch to the writer; the others are unchanged |
| Logger.DeployWithErrorFile | logger/logger.go:39-56 | routing the error bit to a writer and then deploying sends errors there and silences debug |
| Bytes.ToUint64 | core/mvba/consensus/message.go:89-90 | `uint64(x)` agrees with x modulo 2^64 |
| Bytes.Int64RoundTrip | core/mvba/consensus/message.go:89-90 | converting to uint64 and back gives the signed value again |
| Bytes.LE64 | core/mvba/consensus/message.go:89-90 | `binary.LittleEndian.AppendUint64` writes eight bytes |
| Bytes.BE64 | core/mvba/consensus/message.go:280-282 | `binary.BigEndian.AppendUint64` writes eight bytes |
| Bytes.FromLEOfLE | core/mvba/consensus/message.go:89-90 | reading k little-endian bytes back gives any value below 256^k |
| Bytes.FromBEOfBE | core/mvba/consensus/message.go:280-282 | reading k big-endian bytes back gives any value below 256^k |
| Bytes.DecodeLE64 | core/mvba/consensus/message.go:89-90 | the eight little-endian bytes decode to the signed value |
| Bytes.DecodeBE64 | core/mvba/consensus/message.go:280-282 | the eight big-endian bytes decode to the signed value |
| Bytes.LE64Injective | core/mvba/consensus/message.go:89-90 | distinct values give distinct little-endian bytes |
| Bytes.BE64Injective | core/mvba/consensus/message.go:280-282 | distinct values give distinct big-endian bytes |
| Bytes.BinaryDigits | core/mvba/consensus/message.go:55-57 | base-2 digits only, leading with 1 for a positive number |
| Bytes.BinaryValueOfDigits | core/mvba/consensus/message.go:55-57 | the digits read back as the number |
| Bytes.AppendInt2 | core/mvba/consensus/message.go:55-57 | `strconv.AppendInt(nil, x, 2)` starts with '-' exactly for a negative x |
| Bytes.AppendInt2Injective | core/mvba/consensus/message.go:55-57 | one numeral on its own determines its number |
| Bytes.AppendBool | core/vaba/consensus/message.go:287-289 | `strconv.AppendBool` writes 4 bytes for true and 5 for false |
| MvbaMessage.BlockPreimageNotInjective | core/mvba/consensus/message.go:53-58 | two different blocks (proposer 1, epoch 2 and proposer 3, epoch 0) hash the same bytes |
| MvbaMessage.ProposalPreimage | core/mvba/consensus/message.go:87-93 | 48 bytes ending with the block digest |
| MvbaMessage.CommitmentPreimage | core/mvba/consensus/message.go:126-130 | 16 bytes |
| MvbaMessage.CommitmentIgnoresVector | core/mvba/consensus/message.go:126-130 | commitments differing only in their vector share a digest |
| MvbaMessage.ReadyPreimage | core/mvba/consensus/message.go:165-171 | 25 bytes |
| MvbaMessage.ReadyPreimageInjective | core/mvba/consensus/message.go:165-171 | the Ready preimage determines every field |
| MvbaMessage.FinalPreimage | core/mvba/consensus/message.go:204-209 | 17 bytes |
| MvbaMessage.FinalPreimageInjective | core/mvba/consensus/message.go:204-209 | the Final preimage determines every field |
| MvbaMessage.ElectSharePreimage | core/mvba/consensus/message.go:240-243 | 8 bytes |
| MvbaMessage.ElectShareIgnoresAuthor | core/mvba/consensus/message.go:240-243 | two elect shares have one digest exactly when their epochs agree |
| MvbaMessage.FlagPreimage | core/mvba/consensus/message.go:278-284 | the shared big-endian layout is 25 bytes |
| MvbaMessage.FlagPreimageInjective | core/mvba/consensus/message.go:278-284 | that layout determines author, leader, epoch and flag |
| MvbaMessage.ABAValIgnoresRounds | core/mvba/consensus/message.go:319-325 | the digest covers only the declared author, leader, epoch and flag (25 bytes), so ABA values differing only in the round or in-round that aba.go reads share a digest |
| MvbaMessage.VotePreimageInjective | core/mvba/consensus/message.go:278-284 | a Vote's preimage determines its author, leader, epoch and flag |
| MvbaMessage.CoinSharePreimage | core/mvba/consensus/message.go:399-403 | 16 bytes |
| MvbaMessage.CoinShareIgnoresAuthor | core/mvba/consensus/message.go:399-403 | two coin shares have one digest exactly when leader and epoch agree |
| VabaMessage.ProposalPreimage | core/vaba/consensus/message.go:90-97 | a nil block panics; otherwise the preimage ends with the block digest |
| VabaMessage.VotePreimage | core/vaba/consensus/message.go:134-141 | the preimage ends with the voted block hash |
| VabaMessage.VotePreimageNotInjective | core/vaba/consensus/message.go:134-141 | author 1 in phase 2 and author 3 in phase 0 sign the same bytes |
| VabaMessage.SkipIsSwappedDone | core/vaba/consensus/message.go:172-211 | a Skip signs the bytes of the Done with author and epoch swapped |
| VabaMessage.ElectShareIgnoresAuthor | core/vaba/consensus/message.go:242-245 | the elect-share digest does not depend on the author |
| VabaMessage.ViewChangeIgnoresEpochAndHash | core/vaba/consensus/message.go:284-290 | neither epoch nor block hash is covered by the view-change digest |
| VabaMessage.BoolsInjective | core/vaba/consensus/message.go:287-289 | the text of three booleans determines them |
| VabaMessage.ViewChangeFlagsDetermined | core/vaba/consensus/message.go:284-290 | for one author the digest tells the three flags apart |
| MercuryMessage.BlockHashIgnoresReference | core/mercury/consensus/message.go:59-64 | the block digest does not cover the reference list |
| MercuryMessage.SPBProposalPreimage | core/mercury/consensus/message.go:97-107 | the header numerals, then the block digest only when there is a block |
| MercuryMessage.SPBProposalBlockAddsDigest | core/mercury/consensus/message.go:97-107 | a proposal with a block hashes 32 more bytes than one without |
| MercuryMessage.SPBVoteIgnoresProposer | core/mercury/consensus/message.go:146-153 | the vote digest does not cover the proposer |
| MercuryMessage.FinishPreimage | core/mercury/consensus/message.go:188-194 | the preimage starts with the block digest |
| MercuryMessage.FinishPreimageFixesDigest | core/mercury/consensus/message.go:188-194 | equal preimages have equal block digests |
| MercuryMessage.DoneCoversTry | core/mercury/consensus/message.go:229-235 | tries with numerals of different length give different Done preimages |
| MercuryMessage.ElectShareIgnoresAuthor | core/mercury/consensus/message.go:270-275 | the elect-share digest does not depend on the author |
| MercuryMessage.VoteLayout | core/mercury/consensus/message.go:316-324 | the Prevote and FinVote layout ends with the block hash |
| MercuryMessage.PrevoteIgnoresTry | core/mercury/consensus/message.go:316-324 | prevotes differing only in try share a digest |
| MercuryMessage.FinVoteIgnoresTry | core/mercury/consensus/message.go:364-372 | fin-votes differing only in try share a digest |
| MercuryMessage.HaltIgnoresRound | core/mercury/consensus/message.go:409-415 | halts differing only in round share a digest |
| MercuryMessage.NewPrevote | core/mercury/consensus/message.go:293-309 | every argument, the leader included, lands in its field |
| MercuryMessage.NewFinVote | core/mercury/consensus/message.go:342-357 | the leader argument is dropped, leaving leader 0; every other argument lands in its field |
| MercuryMessage.NewFinVoteLosesLeader | core/mercury/consensus/message.go:342-372 | fin-votes built for different leaders have one digest |
| MercuryMessage.NewHalt | core/mercury/consensus/message.go:388-402 | leader, digest, epoch and round land in their own fields despite the argument order |
| Pool.BatchIdResidue | pool/pool.go:59 | every batch id of a node is congruent to the node's id modulo N |
| Pool.BatchIdIncreasing | pool/pool.go:59-62 | batch ids strictly increase with the batch counter |
| Pool.BatchIdsDisjoint | pool/pool.go:59 | two nodes with distinct ids in [0, N) never make batches with the same id |
| Pool.ZeroTx | pool/pool.go:69 | `make(Transaction, txSize)` is txSize zero bytes |
| Pool.Copies | pool/pool.go:67-71 | the loop appends `count` copies of one transaction |
| Pool.Made | pool/pool.go:57-73 | the k-th batch has id `Id + N*k`; a transaction list exactly when batchSize > 0, of batchSize zero-filled transactions |
| Pool.MadeRange | pool/pool.go:57-73 | consecutive batches are made in counter order |
| Pool.ReceivedLines | pool/pool.go:61-65 | the lines logged for a run of consecutive batches are one "Received Batch" line per batch id, in counter order |
| Pool.NewPoolLog | pool/pool.go:126-141 | `NewPool` logs exactly four lines, in order the queue capacity, tx size, batch size and tx rate, each as its fixed text, the number in `%d` form and " \n" |
| Pool.NewPoolLogReadsBack | pool/pool.go:126-141 | for a non-negative parameter, the text between a configuration line's fixed words and its trailing " \n" is all digits and reads back as that parameter |
| Pool.MakesForClosedForm | pool/pool.go:50-53 | since the count is never decremented, every transaction from the batchSize-th on makes a batch |
| Pool.EveryTxMakesOnceFull | pool/pool.go:50-53 | once the count has reached the batch size, each further transaction makes a batch |
| Pool.TxQueue.constructor | pool/pool.go:21-39 | empty ring of maxQueueSize slots, write index 0, read index -1, counters 0; `txSize` is never assigned and stays 0 |
| Pool.TxQueue.Make | pool/pool.go:57-73 | appends the next batch to the channel, logs its id and advances the batch counter by one |
| Pool.TxQueue.Put | pool/pool.go:75-77 | appends the batch to the channel; the queue stays valid, so the read index stays -1, and the counters, write index and log are unchanged |
| Pool.TxQueue.Get | pool/pool.go:79-86 | returns and removes the oldest queued batch with nothing else changed, or, when the channel is empty, makes the next batch, logs it, advances the batch counter and returns it; the write index and transaction count never change |
| Pool.TxQueue.Receive | pool/pool.go:43-53 | the "pool is full" test never fires (the read index stays -1); the transaction lands at the write index, which advances around the ring; a batch is made once the count reaches batchSize |
| Pool.TxQueue.Run | pool/pool.go:41-55 | after a stream of transactions the count and write index advance by its length, exactly the batches counted by the closed form are made and logged, in counter order, and the ring holds the transactions written one by one from the old write index on |
| Pool.WrittenHoldsRecent | pool/pool.go:44-49 | because the read index never moves, writing never stops: the ring holds each of the last `maxQueueSize` transactions of a stream at its own slot, and older ones are overwritten |
| Pool.WrittenKeepsUnreached | pool/pool.go:48-49 | a ring slot that no transaction of the stream reached keeps its old content |
| Pool.RingSlotsDistinct | pool/pool.go:49 | two writes fewer than `maxQueueSize` steps apart land in different slots of the ring |
| Pool.RunNext | pool/pool.go:43-53 | one received transaction, as `Receive` performs it, keeps the state `run` promises after the transactions so far |
| InOrder.FlushSpec | core/vaba/consensus/commitor.go:28-36 | the release loop hands out the blocks of epochs index, index+1, ... in order, stops at the first missing epoch, advances the index by their number and deletes exactly those |
| InOrder.FlushKeepsAhead | core/vaba/consensus/commitor.go:28-36 | when every buffered epoch is at least the index, everything left is beyond the new index |
| InOrder.FlushIdempotent | core/vaba/consensus/commitor.go:28-36 | a second release right after one releases nothing |
| InOrder.InsertThenFlush | core/vaba/consensus/commitor.go:23-36 | a block at the expected epoch is released first and moves the index; a block ahead of it is only buffered |
| MvbaCommitor.CommitText | core/mvba/consensus/commitor.go:28 | the logged line starts with "commit Block epoch ", the prefix the log analyser matches |
| MvbaCommitor.CommitLog | core/mvba/consensus/commitor.go:26-31 | at most one line per consumed block |
| MvbaCommitor.CommitLogLength | core/mvba/consensus/commitor.go:27-29 | one line per block when every block has transactions; none when no block has |
| MvbaCommitor.CommitLogStep | core/mvba/consensus/commitor.go:26-31 | consuming one more block adds its line exactly when it has transactions |
| MvbaCommitor.CommitLogAppend | core/mvba/consensus/commitor.go:26-31 | consuming two runs of blocks logs the first run's lines, then the second's |
| MvbaCommitor.Commitor.constructor | core/mvba/consensus/commitor.go:16-35 | empty leader and block maps, index 0, empty channel |
| MvbaCommitor.Commitor.CommitLeader | core/mvba/consensus/commitor.go:37-43 | the recorded leader of an epoch, or NONE |
| MvbaCommitor.Commitor.Commit | core/mvba/consensus/commitor.go:45-63 | an epoch below the index changes nothing; otherwise the leader is recorded, and a non-nil block is buffered and the consecutive run from the index released to the channel; the index moves exactly when the block is at it |
| MvbaCommitor.Commitor.Release | core/mvba/consensus/commitor.go:54-62 | the loop releases exactly what the in-order flush specifies |
| MvbaCommitor.Commitor.Run | core/mvba/consensus/commitor.go:25-32 | the consumer logs the commit line of each block with transactions, in order, and sends one callback per block |
| VabaCommitor.Committor.constructor | core/vaba/consensus/commitor.go:12-21 | index 0, no buffered blocks, empty channel |
| VabaCommitor.Committor.Commit | core/vaba/consensus/commitor.go:23-37 | a block below the index changes nothing; otherwise it is buffered and the in-order run released; a block at the index is released first, one ahead is only buffered |
| VabaCommitor.Committor.Release | core/vaba/consensus/commitor.go:28-36 | the loop releases exactly what the in-order flush specifies |
| VabaCommitor.Committor.Run | core/vaba/consensus/commitor.go:39-46 | the consumer logs the commit line of each block with transactions, in order, and sends one callback per block |
| MercuryCommitor.Ids | core/mercury/consensus/commitor.go:45-55 | every released block's batch id is among the ids |
| MercuryCommitor.RefStep | core/mercury/consensus/commitor.go:40-52 | a reference yields at most one block: the decoded stored block when it reads and decodes, has transactions and an unflagged batch id, which is then flagged; otherwise nothing changes |
| MercuryCommitor.OwnStep | core/mercury/consensus/commitor.go:54-57 | the epoch's own block is released and flagged whenever it has transactions, flagged or not |
| MercuryCommitor.ExpandRefsAppend | core/mercury/consensus/commitor.go:40-52 | referenced blocks are released in reference order |
| MercuryCommitor.FreshIdsAppend | core/mercury/consensus/commitor.go:45-47 | appending a block with transactions and an unseen batch id keeps the released ids fresh and pairwise distinct |
| MercuryCommitor.ExpandRefsFresh | core/mercury/consensus/commitor.go:40-52 | the referenced blocks released have transactions and pairwise distinct batch ids not flagged before, and the flags grow by exactly those ids |
| MercuryCommitor.ExpandRefsFromStore | core/mercury/consensus/commitor.go:40-52 | every referenced block released is the decoded stored block of one of the references |
| MercuryCommitor.EpochReleaseOwnLast | core/mercury/consensus/commitor.go:40-61 | the epoch's own block comes last, after its referenced blocks, whenever it has transactions, even if its id was already committed |
| MercuryCommitor.ExpandRefsFlagsGrow | core/mercury/consensus/commitor.go:40-52 | the committed batch ids only grow over the references |
| MercuryCommitor.MercuryFlushFlagsGrow | core/mercury/consensus/commitor.go:35-67 | the committed batch ids only grow over a whole release |
| MercuryCommitor.MercuryFlushIndex | core/mercury/consensus/commitor.go:35-67 | the index and the buffer move exactly as in the plain in-order release |
| MercuryCommitor.ContinuesStep | core/mercury/consensus/commitor.go:37-63 | releasing one epoch and deleting it continues the flush begun at the start of the loop |
| MercuryCommitor.Committor.constructor | core/mercury/consensus/commitor.go:17-28 | index 0, no buffered blocks, no committed ids, empty channel |
| MercuryCommitor.Committor.Commit | core/mercury/consensus/commitor.go:30-68 | a block below the index changes nothing; otherwise it is buffered and the consecutive epochs released with their references expanded; the committed ids only grow |
| MercuryCommitor.Committor.Release | core/mercury/consensus/commitor.go:35-67 | the outer loop releases exactly what the Mercury flush specifies |
| MercuryCommitor.Committor.ReleaseEpoch | core/mercury/consensus/commitor.go:38-61 | the loop body for one epoch releases exactly the epoch's expansion and updates the flags to match |
| MercuryCommitor.Committor.Run | core/mercury/consensus/commitor.go:70-77 | the consumer logs the commit line of each block with transactions, in order, and sends one callback per block |
| MvbaAggregator.VoteAggreator.constructor | core/mvba/consensus/aggreator.go:67-72 | no voter recorded, flag down |
| MvbaAggregator.VoteAggreator.Append | core/mvba/consensus/aggreator.go:74-88 | an error exactly for a repeated voter; the voter is recorded; ACTION_ONE exactly on the first YES before the flag, ACTION_TWO exactly when a non-YES vote brings the voters to the high threshold before the flag; the flag records any action |
| MvbaAggregator.FirstAction | core/mvba/consensus/aggreator.go:79-86 | a new aggregator acts exactly on a YES vote or when one voter is a quorum, ACTION_TWO only for a non-YES vote |
| MvbaAggregator.CoinBit | core/mvba/consensus/aggreator.go:114-117 | the coin is 0 or 1, and for combined data it is the parity of the last byte folded in |
| MvbaAggregator.FoldCoin | core/mvba/consensus/aggreator.go:108-116 | the uint64 loop over at most RANDOM_LEN bytes computes the big-endian seed without overflow |
| MvbaAggregator.CoinAggreator.constructor | core/mvba/consensus/aggreator.go:95-100 | no author recorded, no shares |
| MvbaAggregator.CoinAggreator.Append | core/mvba/consensus/aggreator.go:102-121 | `Used` is checked but never written, so every share is appended; at exactly the high threshold the shares are combined, a failed combination is an error and a successful one gives the coin bit |
| MvbaAggregator.Aggreator.constructor | core/mvba/consensus/aggreator.go:16-25 | no vote or coin buckets |
| MvbaAggregator.Aggreator.AddVote | core/mvba/consensus/aggreator.go:27-39 | a vote of an epoch without a bucket stores a new bucket under the vote's round, not its epoch, so it meets a fresh aggregator; otherwise the round's aggregator, created on first use, takes the vote |
| MvbaAggregator.Aggreator.CoinFor | core/mvba/consensus/aggreator.go:42-52 | the (round, in-round) aggregator, created empty and stored on first use |
| MvbaAggregator.Aggreator.AddCoinShare | core/mvba/consensus/aggreator.go:41-54 | a share for a new round of a known epoch writes into a nil map and panics; otherwise the share is appended to its aggregator, created on first use, with that aggregator's outcome |
| MvbaElector.Seed | core/mvba/consensus/elector.go:57-65 | the seed made of the first RANDOM_LEN bytes of the coin is below 2^56 |
| MvbaElector.SevenBytes | core/mvba/consensus/elector.go:10 | RANDOM_LEN bytes hold values below 2^56, so they fit an int64 |
| MvbaElector.FoldSeed | core/mvba/consensus/elector.go:57-65 | the int64 loop `seed<<8 + data[i]` computes the big-endian seed without overflow |
| MvbaElector.Reduce | core/mvba/consensus/elector.go:96 | a draw modulo the committee size is a node index below the size |
| MvbaElector.SeedKeepsDrawn | core/mvba/consensus/elector.go:72-76 | seeding an epoch with no draws keeps every recorded draw |
| MvbaElector.RecountKeepsDrawn | core/mvba/consensus/elector.go:100 | writing back an epoch's own counter keeps every recorded draw and counted round |
| MvbaElector.DrawKeepsDrawn | core/mvba/consensus/elector.go:95-99 | recording draw c+1 of an epoch whose counter is c keeps all the elector invariants and every earlier leader |
| MvbaElector.DrawKeepsRecorded | core/mvba/consensus/elector.go:95-99 | the draws recorded before, and the new one, are recorded after |
| MvbaElector.DrawKeepsCounted | core/mvba/consensus/elector.go:78-85 | the new round is the only leader added, and it is the new counter |
| MvbaElector.Elector.constructor | core/mvba/consensus/elector.go:23-35 | every map empty |
| MvbaElector.Elector.AddElectShare | core/mvba/consensus/elector.go:37-70 | `used` is never written, so every share is appended to its epoch's list; at exactly the high threshold the shares are combined: a failure is an error, a success seeds the epoch with the coin's seed and a generator with no draws |
| MvbaElector.Elector.AppendShare | core/mvba/consensus/elector.go:43-53 | the duplicate check never fires and the share is appended to the epoch's list |
| MvbaElector.Elector.AddSeed | core/mvba/consensus/elector.go:72-76 | records the seed and a fresh generator for the epoch, keeping every recorded draw |
| MvbaElector.Elector.Leader | core/mvba/consensus/elector.go:87-103 | NONE before the epoch is seeded; otherwise the leader of round r >= 1 is draw r-1 modulo the size, generated on demand; rounds below 1 read as node 0; the counter rises to the round and earlier leaders never change |
| MvbaElector.Elector.StoreCount | core/mvba/consensus/elector.go:100 | writing the counter back changes no count |
| MvbaElector.Elector.DrawNext | core/mvba/consensus/elector.go:95-99 | one loop step draws the next value, records it as the next round's leader and raises that epoch's counter by one |
| MvbaAba.Bump | core/mvba/consensus/aba.go:66 | incrementing a Go map entry adds one to that key's count (a missing key counting 0) and leaves every other key's |
| MvbaAba.MuxDecision | core/mvba/consensus/aba.go:130-151 | with at least th muxes: yes only with a yes mux and th yes vals, no likewise; both only when both val counts reach th; th vals and th muxes of a value always set it; with th vals of each value one flag is always set |
| MvbaAba.DecideFlags | core/mvba/consensus/aba.go:130-151 | the branch cascade sets exactly the flags MuxDecision gives |
| MvbaAba.CountingKeepsInvoked | core/mvba/consensus/aba.go:63-74 | counts only grow, so every value already reported stays at or above LowThreshold |
| MvbaAba.InvokingKeepsInvoked | core/mvba/consensus/aba.go:74-82 | reporting a value whose count reached LowThreshold keeps every report backed by its count |
| MvbaAba.EmitKeepsOutOk | core/mvba/consensus/aba.go:86-91 | emitting an event whose once-key is new, and recording it, keeps every once-only rule of the output |
| MvbaAba.InvokeKeepsOutOk | core/mvba/consensus/aba.go:74-82 | a first ABA_INVOKE report for an (in-round, value) keeps the once-only rules |
| MvbaAba.CoinShareKeepsOutOk | core/mvba/consensus/aba.go:130-158 | a coin share for an in-round not yet finished keeps the once-only rules when the in-round is marked finished |
| MvbaAba.CoinRule | core/mvba/consensus/aba.go:165-185 | both or neither flag: next in-round with the coin; exactly one flag: halt iff the coin equals it, else next in-round with that flag's value |
| MvbaAba.ABA.CountVal | core/mvba/consensus/aba.go:63-72 | a val is counted under its in-round and flag (a flag neither yes nor no counts nothing) and the new count is returned |
| MvbaAba.ABA.constructor | core/mvba/consensus/aba.go:42-57 | every counter and flag map empty, not halted, nothing sent |
| MvbaAba.ABA.ProcessABAVal | core/mvba/consensus/aba.go:59-94 | nothing after halt; otherwise the val is counted, ABA_INVOKE is reported when the count becomes LowThreshold, else at HightThreshold one ABAMux per in-round is relayed |
| MvbaAba.ABA.ReportInvoke | core/mvba/consensus/aba.go:74-82 | appends the ABA_INVOKE report with this instance's epoch and round and the val's in-round, flag and leader |
| MvbaAba.ABA.RelayMux | core/mvba/consensus/aba.go:86-91 | marks the in-round and broadcasts an ABAMux carrying the val's value |
| MvbaAba.ABA.ProcessABAMux | core/mvba/consensus/aba.go:96-160 | nothing after halt or once the in-round is finished; otherwise the mux is counted, the flags MuxDecision picks are set, and a coin share is broadcast exactly when one is set |
| MvbaAba.ABA.CountMux | core/mvba/consensus/aba.go:107-115 | a mux is counted under its in-round and flag |
| MvbaAba.ABA.SendCoinShare | core/mvba/consensus/aba.go:130-158 | sets the chosen flags, finishes the in-round and broadcasts one coin share |
| MvbaAba.ABA.ProcessCoin | core/mvba/consensus/aba.go:162-186 | broadcasts the CoinRule outcome for the in-round's flags, even after halt |
| MvbaAba.ABA.ProcessHalt | core/mvba/consensus/aba.go:188-207 | the first halt rebroadcasts the halt under this node's name and reports ABA_HALT; later halts do nothing |
| MvbaAba.HaltReportedOnce | core/mvba/consensus/aba.go:188-207 | whatever messages arrive, an instance reports ABA_HALT at most once |
| MvbaCbc.Held | core/mvba/consensus/cbc.go:117-131 | the messages held back are a subsequence of those processed, each lacking its payload |
| MvbaCbc.HeldExactly | core/mvba/consensus/cbc.go:114-175 | a message is held back iff it was processed while its tag's payload (block hash or commitment) was unknown |
| MvbaCbc.HeldStep | core/mvba/consensus/cbc.go:126-131 | processing one more message appends it to the held list exactly when its payload is unknown |
| MvbaCbc.ReadyFinalsCross | core/mvba/consensus/cbc.go:135-141 | replaying Readies sends one Final, from this node and epoch, exactly when the Ready count crosses HightThreshold among them, and nothing else |
| MvbaCbc.FinalReportsFirst | core/mvba/consensus/cbc.go:165-174 | replaying Finals reports once, naming this epoch, proposer and commitment, exactly when the first Final is counted among them, and nothing else |
| MvbaCbc.EmitKeepsSentOk | core/mvba/consensus/cbc.go:135-141 | a Final sent as the Ready count crosses HightThreshold and a report made as the Final count reaches 1 keep the at-most-once rules |
| MvbaCbc.CBC.constructor | core/mvba/consensus/cbc.go:37-54 | no block hash, no commitment, empty buffers, zero counts, nothing sent |
| MvbaCbc.CBC.ReadyEvent | core/mvba/consensus/cbc.go:76-82 | the proposer's own Ready goes to itself, any other node's is sent to the proposer |
| MvbaCbc.CBC.ProcessReady | core/mvba/consensus/cbc.go:114-142 | a Ready lacking its payload is buffered and not counted; otherwise the count rises by one and the Final for its tag is broadcast exactly when the count becomes HightThreshold |
| MvbaCbc.CBC.CountReady | core/mvba/consensus/cbc.go:135-141 | the Ready count rises by one and the Final is sent exactly at HightThreshold |
| MvbaCbc.CBC.ProcessFinal | core/mvba/consensus/cbc.go:144-175 | a Final lacking its payload is buffered; otherwise it is counted and the first counted Final reports epoch, proposer, tag and the current commitment |
| MvbaCbc.CBC.CountFinal | core/mvba/consensus/cbc.go:165-174 | the Final count rises by one and the report is made exactly at the first |
| MvbaCbc.CBC.Replay | core/mvba/consensus/cbc.go:65-73 | the buffers are emptied and their messages processed, Readies first: those still lacking their payload are buffered again, the others counted; the output gains exactly the Finals of `ReadyFinals` and then the reports of `FinalReports` over the held lists |
| MvbaCbc.CBC.ReplayReadies | core/mvba/consensus/cbc.go:66-68 | each buffered Ready is processed in order; the output gains exactly `ReadyFinals` of them, the Final sent by the Ready that brings the count to HightThreshold |
| MvbaCbc.CBC.ReplayFinals | core/mvba/consensus/cbc.go:69-71 | each buffered Final is processed in order; the output gains exactly `FinalReports` of them, the report made by the first Final counted |
| MvbaCbc.CBC.ProcessProposal | core/mvba/consensus/cbc.go:56-84 | only the proposer's proposal acts: it records the block hash, so no DATA message stays buffered, replays the buffers and sends a DATA Ready; the output is the Finals and reports of the replay followed by that Ready |
| MvbaCbc.CBC.SendReady | core/mvba/consensus/cbc.go:76-82 | sends this node's Ready for the tag |
| MvbaCbc.CBC.ProcessCommitment | core/mvba/consensus/cbc.go:86-112 | only the proposer's commitment acts: it records the vector, so no COMMIT message stays buffered, replays the buffers and sends a COMMIT Ready; the output is the Finals and reports of the replay, the reports carrying the new vector, followed by that Ready |
| MvbaCbc.FinalSentOnce | core/mvba/consensus/cbc.go:135-141 | whatever the messages, an instance broadcasts at most one Final |
| MvbaCbc.ReportedOnce | core/mvba/consensus/cbc.go:165-174 | an instance reports to the core at most once, naming its own epoch and proposer |
| MvbaCbc.FinalNeedsQuorum | core/mvba/consensus/cbc.go:135-141 | a Final is sent only after HightThreshold Readies were counted |
| ParMvbaAggregator.FinishAggreator.constructor | core/parmvba/consensus/aggreator.go:90-94 | no authors |
| ParMvbaAggregator.FinishAggreator.Append | core/parmvba/consensus/aggreator.go:96-105 | a repeated author is an error; otherwise the author is recorded and true is returned exactly when the authors number HightThreshold |
| ParMvbaAggregator.DoneFlag | core/parmvba/consensus/aggreator.go:128-134 | LOW exactly at LowThreshold, HIGH exactly at HightThreshold when that differs from LowThreshold, NONE otherwise |
| ParMvbaAggregator.DoneAggreator.constructor | core/parmvba/consensus/aggreator.go:117-121 | no authors |
| ParMvbaAggregator.DoneAggreator.Append | core/parmvba/consensus/aggreator.go:123-135 | a repeated author is an error returning 0; otherwise the author is recorded and the flag is DoneFlag of the new count; in a committee of at most three nodes HIGH is never reported |
| ParMvbaAggregator.ElectAggreator.constructor | core/parmvba/consensus/aggreator.go:144-149 | no shares, no authors |
| ParMvbaAggregator.ElectAggreator.Append | core/parmvba/consensus/aggreator.go:151-173 | a repeated author is an error; otherwise the share is appended, and at exactly HightThreshold shares a failed combine is an error while a coin yields its first RANDOM_LEN bytes, big-endian, modulo the committee size, a node index; the leader is `ElectLeader` of the collected shares |
| ParMvbaAggregator.ElectLeader | core/parmvba/consensus/aggreator.go:151-173 | the leader an election aggregator reports is a node index exactly when the author is new, the shares number HightThreshold and combining succeeds, and NONE otherwise |
| ParMvbaAggregator.CoinBound | core/parmvba/consensus/aggreator.go:137 | the RANDOM_LEN-byte value is below 2^24 |
| ParMvbaAggregator.FoldCoin | core/parmvba/consensus/aggreator.go:162-169 | the byte loop, with its negating branch for zero bytes, computes the big-endian value of the first RANDOM_LEN bytes |
| ParMvbaAggregator.PreVoteAggreator.constructor | core/parmvba/consensus/aggreator.go:189-196 | no authors, zero counts, flag unset |
| ParMvbaAggregator.PreVoteAggreator.Append | core/parmvba/consensus/aggreator.go:198-217 | a repeated author is an error; a vote is counted no or yes by its flag; YES exactly on the first yes vote, NO exactly when the no count becomes HightThreshold before any yes vote; the flag never resets |
| ParMvbaAggregator.FinDecision | core/parmvba/consensus/aggreator.go:244-251 | at a full count: COMMIT iff all votes are yes, NO iff all are no, YES otherwise |
| ParMvbaAggregator.FinVoteAggreator.constructor | core/parmvba/consensus/aggreator.go:225-231 | no authors, zero counts |
| ParMvbaAggregator.FinVoteAggreator.Append | core/parmvba/consensus/aggreator.go:233-253 | a repeated author is an error; a vote is counted yes or no by its flag; the decision is made exactly when the voters reach HightThreshold, by FinDecision, and NONE otherwise |
| ParMvbaAggregator.Aggreator.constructor | core/parmvba/consensus/aggreator.go:16-24 | all four aggregator tables empty |
| ParMvbaAggregator.Aggreator.AddFinishVote | core/parmvba/consensus/aggreator.go:26-39 | an existing (epoch, round) aggregator receives the vote; for a new one an empty aggregator is stored while the vote goes to another, so the vote is lost and the result is true only when HightThreshold is 1 |
| ParMvbaAggregator.Aggreator.AddDoneVote | core/parmvba/consensus/aggreator.go:41-54 | the (epoch, round) aggregator, created and stored on first use, receives the vote; no other table changes |
| ParMvbaAggregator.Aggreator.AddPreVote | core/parmvba/consensus/aggreator.go:56-69 | the (epoch, round) aggregator, created and stored on first use, receives the vote with the PreVoteAggreator outcome |
| ParMvbaAggregator.Aggreator.PrevoteFor | core/parmvba/consensus/aggreator.go:57-66 | returns the stored aggregator or stores a fresh empty one |
| ParMvbaAggregator.Aggreator.AddFinVote | core/parmvba/consensus/aggreator.go:71-84 | the (epoch, round) aggregator, created and stored on first use, receives the vote with the FinVoteAggreator outcome |
| ParMvbaAggregator.Aggreator.FinvoteFor | core/parmvba/consensus/aggreator.go:72-81 | returns the stored aggregator or stores a fresh empty one |
| ParMvbaElector.Elector.constructor | core/parmvba/consensus/elector.go:15-22 | empty leader and aggregator tables |
| ParMvbaElector.Elector.SetLeader | core/parmvba/consensus/elector.go:24-31 | records the leader of (epoch, round), creating the epoch's table; every other pair keeps its leader |
| ParMvbaElector.Elector.Leader | core/parmvba/consensus/elector.go:33-44 | the recorded leader, or NONE; it changes no leader, only adding an empty table for an unknown epoch |
| ParMvbaElector.Elector.AggreatorFor | core/parmvba/consensus/elector.go:47-57 | returns the (epoch, round) aggregator or stores a fresh one |
| ParMvbaElector.Elector.AddShareVote | core/parmvba/consensus/elector.go:46-66 | never returns an error; the (epoch, round) aggregator gains the author and, for a new author, the share; the returned node is the leader it draws from those shares (NONE below the threshold, for a repeated author and on a failed combine); a leader other than NONE is recorded for (epoch, round); otherwise no leader changes |
| SmvbaAggregator.FinishAggreator.constructor | core/smvba/consensus/aggreator.go:35-39 | no authors |
| SmvbaAggregator.FinishAggreator.Append | core/smvba/consensus/aggreator.go:41-50 | a repeated author is an error; otherwise the author is recorded, the set grows by one, and true is returned exactly when it reaches HightThreshold |
| SmvbaAggregator.Aggreator.constructor | core/smvba/consensus/aggreator.go:10-15 | an empty table |
| SmvbaAggregator.Aggreator.AddFinishVote | core/smvba/consensus/aggreator.go:17-29 | the table is never written for an unknown epoch, so from the empty table every vote goes to a fresh aggregator: never an error, and true only when HightThreshold is 1 |
| SmvbaSpb.SendKeepsSentOk | core/smvba/consensus/spb.go:102-125 | sending the phase-two proposal or the Finish exactly as its phase count crosses HightThreshold, a Finish carrying the block hash, keeps the at-most-once rules |
| SmvbaSpb.PhaseCount | core/smvba/consensus/spb.go:97-99 | the number of votes of a phase is at most the number of votes, and zero when none has that phase |
| SmvbaSpb.PhaseCountStep | core/smvba/consensus/spb.go:97-99 | counting one more vote adds one to its phase's count and changes no other phase |
| SmvbaSpb.SPB.constructor | core/smvba/consensus/spb.go:28-37 | no block hash, no votes, empty buffers, unlocked, nothing sent |
| SmvbaSpb.SPB.VoteEvent | core/smvba/consensus/spb.go:51-55 | a node other than the proposer sends its vote to the proposer; the proposer pushes it into its own channel |
| SmvbaSpb.SPB.Lock | core/smvba/consensus/spb.go:76-86 | sets the lock and sends a phase-two vote with the zero digest |
| SmvbaSpb.SPB.CountVote | core/smvba/consensus/spb.go:97-126 | the vote's phase count rises by one; at HightThreshold phase one broadcasts the block-less phase-two proposal and phase two the Finish with the block hash |
| SmvbaSpb.SPB.ProcessVote | core/smvba/consensus/spb.go:90-127 | a vote before the block hash is buffered and not counted; afterwards it is counted as CountVote says |
| SmvbaSpb.SPB.ReplayProposals | core/smvba/consensus/spb.go:59-61 | each held phase-two proposal locks and sends its zero-digest vote, in order: the output gains exactly `LockVotes` of the held proposals |
| SmvbaSpb.SPB.LockVotesAt | core/smvba/consensus/spb.go:76-86 | the i-th lock vote answers the i-th held proposal, with the zero digest and that proposal's author and phase |
| SmvbaSpb.SPB.ReplayVotes | core/smvba/consensus/spb.go:62-64 | each held vote is counted, so every phase count grows by the number of held votes of that phase; the output gains exactly `QuorumEvents` of them, the phase-two proposal and Finish that counting sends |
| SmvbaSpb.SPB.QuorumEventsCross | core/smvba/consensus/spb.go:97-126 | counting held votes sends the phase-two proposal exactly when the phase-one count crosses HightThreshold, the Finish with the block hash exactly when the phase-two count does, and nothing else |
| SmvbaSpb.SPB.ProcessProposal | core/smvba/consensus/spb.go:39-88 | phase one: ignored once the hash is known or for another proposer's block, panics on a missing block, else fixes the hash and sends exactly its vote, the lock votes of the held proposals and the quorum messages of the held votes; phase two: buffered before the hash, else locks; other phases ignored; the hash never changes once set |
| SmvbaSpb.SPB.AcceptBlock | core/smvba/consensus/spb.go:45-67 | fixes the hash, empties the buffers, locks iff a phase-two proposal was held, counts exactly the held votes, and sends exactly the vote carrying the hash, then `LockVotes` of the held proposals and `QuorumEvents` of the held votes |
| SmvbaSpb.SPB.TakeBlock | core/smvba/consensus/spb.go:45-56 | records the hash, hands back both buffers and sends the node's vote |
| SmvbaSpb.SPB.IsLock | core/smvba/consensus/spb.go:129-131 | the lock flag, which is set only after the block hash is known |
| SmvbaSpb.SPB.GetBlockHash | core/smvba/consensus/spb.go:133-135 | the block hash; while there is none nothing is counted or locked |
| SmvbaSpb.PhaseTwoProposedOnce | core/smvba/consensus/spb.go:102-116 | an instance broadcasts the phase-two proposal at most once, and only after HightThreshold phase-one votes |
| SmvbaSpb.FinishedOnce | core/smvba/consensus/spb.go:117-124 | an instance sends Finish at most once, after HightThreshold phase-two votes, carrying its block hash |
| VabaAggregator.NormalAggreator.constructor | core/vaba/consensus/aggreator.go:41-45 | no authors |
| VabaAggregator.NormalAggreator.Append | core/vaba/consensus/aggreator.go:47-56 | a repeated author is an error; otherwise the author is recorded and true is returned exactly when the authors number HightThreshold |
| VabaAggregator.Aggreator.constructor | core/vaba/consensus/aggreator.go:11-17 | both maps empty |
| VabaAggregator.Aggreator.AddDoneVote | core/vaba/consensus/aggreator.go:19-26 | the epoch's aggregator, created and stored on first use, receives the Done; the skip map is untouched |
| VabaAggregator.Aggreator.AddSkipVote | core/vaba/consensus/aggreator.go:28-35 | the skip map is never written, so each skip share goes to a fresh aggregator stored over the epoch's done aggregator: never an error, and true only when HightThreshold is 1, so never in a committee of four or more |
| VabaElector.ElectAggreator.constructor | core/vaba/consensus/elector.go:59-64 | no shares, no authors |
| VabaElector.ElectAggreator.Append | core/vaba/consensus/elector.go:66-88 | a repeated author is an error; otherwise the share is collected, and it panics exactly when the shares reach HightThreshold and combining fails (the inverted error check); every returned node is NONE |
| VabaElector.Elector.constructor | core/vaba/consensus/elector.go:15-22 | empty leader and aggregator tables |
| VabaElector.Elector.SetLeader | core/vaba/consensus/elector.go:24-26 | records the epoch's leader, keeping every other epoch's |
| VabaElector.Elector.Leader | core/vaba/consensus/elector.go:28-34 | the epoch's recorded leader, NONE for an epoch without one |
| VabaElector.Elector.AddShareVote | core/vaba/consensus/elector.go:36-50 | the epoch's aggregator, created on first use, gains the author and, for a new author, the share; the call panics exactly when that share makes HightThreshold and the combine fails; any return is NONE without an error, so no leader is ever recorded |
| VabaPromote.MatchCount | core/vaba/consensus/promote.go:128-137 | the votes of a phase carrying the block hash number at most the votes |
| VabaPromote.MismatchNotCounted | core/vaba/consensus/promote.go:128-132 | a vote whose hash differs from the block hash adds nothing to any phase count |
| VabaPromote.Promote.constructor | core/vaba/consensus/promote.go:30-50 | no block hash, empty buffers and counters, every flag false, nothing sent |
| VabaPromote.Promote.VoteEvent | core/vaba/consensus/promote.go:110-114 | a node other than the proposer sends its vote to the proposer; the proposer pushes it into its own channel |
| VabaPromote.Promote.Advance | core/vaba/consensus/promote.go:94-114 | phase two sets the key flag, three the lock flag, four the commit flag, each voting for the block hash; any other phase sends a nil vote |
| VabaPromote.Promote.CountVote | core/vaba/consensus/promote.go:135-152 | the phase count rises by one; at exactly HightThreshold a phase below four panics building the block-less proposal, and phase four or above sends Done unless the epoch is skipped |
| VabaPromote.Promote.ProcessVote | core/vaba/consensus/promote.go:118-153 | a vote before the hash is buffered, one with another hash dropped, and one with the block hash counted as CountVote says |
| VabaPromote.Promote.ReplayProposals | core/vaba/consensus/promote.go:83-85 | each held later-phase proposal advances, so each flag is set iff it was set or a held proposal of its phase exists; the output gains exactly `AdvanceVotes`, one vote per held proposal |
| VabaPromote.Promote.AdvanceVotesAt | core/vaba/consensus/promote.go:94-114 | the i-th replayed vote answers the i-th held proposal: a vote for the block hash in its phase for phases two to four, a nil vote otherwise |
| VabaPromote.Promote.ReplayVotes | core/vaba/consensus/promote.go:87-89 | without a panic no held vote panics, each phase count grows by the held votes of that phase carrying the block hash and the output gains exactly their `DoneEvents`; a panic comes from the first vote whose count reaches HightThreshold below phase four, the output gaining the Done messages of the votes before it |
| VabaPromote.Promote.DoneEventsCross | core/vaba/consensus/promote.go:140-151 | counting held votes sends only Done messages for this promotion, none when the epoch is skipped, and one when the phase-four count crosses HightThreshold |
| VabaPromote.Promote.ProcessProposal | core/vaba/consensus/promote.go:52-116 | a later phase is buffered before the hash, else advances; a phase-one proposal from another author is dropped, a block-less one panics, and the proposer's acts as AcceptBlock; flags never reset |
| VabaPromote.Promote.AcceptBlock | core/vaba/consensus/promote.go:71-92 | sets or resets the hash and replays the buffers without emptying them: the output is the replayed proposals' votes, the Done messages of the replayed votes and then the phase-one vote, or, when a replayed vote panics, the votes and the Done messages before the first panicking one |
| VabaPromote.Promote.GetBlockHash | core/vaba/consensus/promote.go:155-157 | the block hash; while there is none nothing is counted and no flag is set |
| VabaPromote.Promote.IsKey | core/vaba/consensus/promote.go:159-161 | the key flag, set only once the block hash is known |
| VabaPromote.Promote.IsLock | core/vaba/consensus/promote.go:163-165 | the lock flag, set only once the block hash is known |
| VabaPromote.Promote.IsCommit | core/vaba/consensus/promote.go:167-169 | the commit flag, set only once the block hash is known |

## Left out

- Network and transport (network/, core/transmitor.go): a send is an event appended to `out`; delivery, gob encoding and TCP are not modelled.
- The consensus engine loops (core/*/consensus/core.go, core/smvba/consensus/consensus.go) only dispatch messages to the components modelled here, so they are not part of this model.
- core/mvba/consensus/message.go:250-440 declares `Vote`, `ABAVal`, `ABAMux`, `CoinShare` and `ABAHalt` without `Round` or `InRound` fields, and their constructors take no such arguments. Yet core/mvba/consensus/aba.go:66-203 and core/mvba/consensus/aggreator.go:31-45 read these fields and pass them to the constructors, so the two files do not build together. The model gives the records the fields their use requires. Their digests follow message.go and cover only the declared fields.
- core/parmvba/consensus/message.go and core/smvba/consensus/message.go are not part of this model. The records the aggregators and SPB read are given just the fields they use; SPB uses the Mercury SPB records, which have the same fields.
- Cryptographic primitives are inputs, because they are foreign libraries:
  - SHA-256 (FIPS 180-4);
  - ed25519 signing (RFC 8032);
  - BLS threshold combination;
  - `VerifyTs`;
  - the `SigService` request goroutine.
- Signing is not modelled: a node's signature share is a method argument.
- The block store (store/) is an input map from digest to encoded block, and gob `Block.Encode`/`Decode` is an input decoding function, because both are library calls.
- Go's `math/rand` is an input generator `prng(seed, k)`; its algorithm is not modelled.
- Concurrency: mutexes, atomics and goroutine replay order are not modelled. Each component handles one message at a time, and held messages are replayed in arrival order.
- Replay output order: the source replays held messages in goroutines, so their messages can interleave with the node's own message. The model puts them where the statements stand: after SPB's phase-one vote, and before the CBC Ready and the promotion's phase-one vote.
- `Logs.Collect`: when several node logs fail, `multiprocessing.Pool.map` re-raises the exception that arrives first, which depends on worker timing. `Logs.Collect` reports the error of the first failing node in order, as one deterministic choice among the possible outcomes. `Logs.Parse` promises only that the error is some node's error.
- Go `int`, `int32` and `int64` counters are unbounded integers, and their overflow is not modelled. Wrap-around is modelled where a value is encoded: `uint64(x)` in the preimages, and the `int64` seed fold.
- Go's nil and empty slices are told apart only where the code does: a block's transaction list is `None` or `Some`. Elsewhere both are the empty sequence.
- `MvbaElector.Elector.constructor`: requires a committee of 1 to 2^63 nodes. A leader draw modulo an empty committee would panic with a division by zero, and that panic is not modelled.
- `ParMvbaElector.Elector.constructor`: requires a non-empty committee, so the division-by-zero panic of the leader draw is not modelled.
- `ParMvbaAggregator.ElectAggreator.Append`: requires a non-empty committee, so the division-by-zero panic of the leader draw is not modelled.
- The combined signature (the `Coin` type of the ParMVBA aggregator) is assumed to be at least RANDOM_LEN bytes long (a BLS signature is 48 or 96 bytes); a shorter one would panic on the index.
- `Pool.TxQueue.constructor`: requires a non-negative queue size, since `make` with a negative size panics.
- `Pool.TxQueue.Receive`: requires a positive queue size. With size 0, `queue[wind]` panics, and that panic is not modelled.
- `Pool.TxQueue.Run`: requires a positive queue size, for the same reason as `Receive`.
- `Pool.TxQueue.Run`: the batch channel is an unbounded sequence, so the blocking of a full channel is not modelled.
- The `txMaker` is not modelled: it is a goroutine that emits transactions at a timed rate, and `Pool.Run` only starts it. `Pool.GetBatch` and `Pool.PutBatch` just forward to the queue's `Get` and `Put`, which are modelled.
- `BenchConfig.NewCommittee`: requires equal-length key and address lists, which `Committee.__init__` asserts. The AssertionError path is not modelled, and the `isinstance` assertions are enforced by the parameter types.
- `BenchConfig.NewLocalCommittee`: its `isinstance` assertions are enforced by the parameter types.
- Python `isinstance` checks on values that arrive already typed are carried by Dafny's types. Checks on JSON values are modelled through `PyJson.Json`.
- `int(...)` on a string accepts an optional sign and decimal digits. Surrounding whitespace, underscores and other Unicode digits are not modelled. JSON `Infinity` and `NaN` are not modelled either.
- Exception messages are not modelled, only the exception kind and the failing key. The same goes for the text of `LogParser.result` and its float formatting (`round`, `{:,}`).
- `_to_posix` (`strptime` with the local time zone) is an input conversion, because it depends on the host's clock settings.
- The regular expressions are input matchers, because the regex engine is a library.
- File I/O is not modelled: `LogParser.process` globbing and reading files, the `print` methods of `LogParser`, `Committee` and `NodeParameters`, `Key`/`TSSKey.from_file`, and reading the settings file (an unreadable or undecodable file is the `None` input of `CloudSettings.Load`).
- Console output is not modelled: the `Print` class and the percentage and `print` call inside `progress_bar`. The bar text and its fill count are modelled.
- The benchmark orchestration is not modelled (`local.py`, `fabfile.py`, `commands.py`, the Alibaba cloud scripts). It is SSH, cloud APIs and shell commands.
- The log line format of Go's `log` package (prefix, date and time) is not modelled, and custom writers are opaque identifiers.
