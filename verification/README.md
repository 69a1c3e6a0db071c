# memory-graph: verification

A Dafny model of the parts of memory-graph that are hardest to get right by reading, and
proofs of what those parts promise. `dafny verify dfyconfig.toml` checks everything.

## What is modelled

**The ingest pipeline** (`crates/graph-cli/src/lib.rs`, `dataflow.rs`). `Budget` is the byte
budget: a ledger with its operations, the bounds that hold over every interleaving, and the
monitor class whose waits are arbitrary turns of the other threads. `Batches` says what a fixed
batch is and that a list of files has exactly one greedy partition. `Writers` is the single
writer: its reorder buffer, its two batching policies and its accounting, as a class whose one
pass equals a function. `Pipeline` puts walk, admission, parse threads and writer together as a
transition system in which every shared operation is one action, and the cap may move at any
time. `Accounts`, `Commits` and `Runs` are what every step keeps and what follows for every run;
`Liveness` shows that no reachable state is stuck and that every run ends; `Passes` ties the
writer class to the transition system.

**The token scanners** (`crates/graph-core/src/scan.rs`). `Delimiters` relates the delimiter
stack to balanced words, independently of any scan; `Scans` holds the scans, the one-pass tables
and the cursor; `Nested` is the memoised list finder, whose cache is compared with a plain
forward scan over every history of queries.

**The prototype store** (`spikes/data-model/spike.rs`). `Bits` is 64-bit shifts, or and exclusive
or on numbers; `Codec` is the varint, zigzag and token
stream codec, encoder and decoder both; `Postings`, `Index` and `Dictionary` are the term
dictionary and the inverted index; `Containment` is the open-symbol stack; `Store`, `Tree` and
`Histories` are the tables under every history of ingests and deletes, compared with the shelf of
files such a history should leave; `Search` and `Queries` are the search, through the postings
and by scanning; `Answers` says what its rows count in terms of the files alone; `Prototype` is the
store as it runs.

**The client** (`crates/graph-client/src/conn.rs`, `reads.rs`). `Retry` is one round of the call
loop against an arbitrary world, `Rotation` where rotating leads, `Client` the connection and its
loop, `Paging` the unlimited search under a snapshot handle while nodes change.

**Decoding, sizing, paths.** `Utf16` and `Decoding` are source decoding
(`crates/graph-core/src/encoding.rs`) with UTF-16 made concrete as in sections 2.1 and 2.2 of
RFC 2781; `Sizing` is the memory budget's arithmetic (`crates/graph-cli/src/sysinfo.rs`); `Paths`
is `normalize_path` (`crates/graph-core/src/language.rs`).

## What the code does not quite do

Some statements one would like to make are false of the code. Each has a witness and the exact
condition under which it holds.

- `prepared_bytes` returns to zero at the end of a run exactly when no prepared file shrank
  between walk and read (`Runs.PreparedBytesReturn`).
- Deterministic mode never stalls with a slack of one batch less one byte or more, and can stall
  with any smaller one (`Liveness.NeverStuck`, `Liveness.LessSlackGetsStuck`).
- A stream decodes to its tokens exactly when no token starts on an earlier line than its
  predecessor ends on (`Codec.StreamRoundTrip`); everything but the lines survives regardless.
- The last covering symbol is always the innermost exactly when, wherever two symbols cross, a
  later symbol that ends no later than the earlier of them covers the place as well
  (`Containment.LastCoverIsInnermostIff`). Spans that nest never cross
  (`Containment.LastCoverIsInnermost`); see also `Containment.CrossingSpansBreakIt` and
  `Containment.ShieldedCrossing`.
- The table of closers over `code` is what a binary search would find, whatever it is given; it is
  the only thing one could find exactly when the closer is listed once
  (`Scans.ListedIsLookedUp`, `Scans.RepeatedCloserParts`).
- Term ids are 32 bits wide and wrap. They tell the texts of a history apart exactly when the
  history holds at most 2^32 different texts (`Histories.IdsAreDistinctIff`); the theorems about
  the tables of a history ask for that and no more.
- The retry loop is bounded exactly when the base back-off is at least one nanosecond and the cap
  at least two (`Retry.EndsIffItBacksOff`). The shortest sleep of two retries in a row is half of
  the smaller of base and cap, or 250 ms (`Retry.TwoRetriesSleep`, `Retry.LeastIsAttained`): half
  of the base alone is wrong when the cap is below it. `Duration::clamp` stops the program on a
  `NoLeader` when the base is above the cap, after the client has rotated; that is the outcome
  `Panicked`.
- Rotation reaches every configured endpoint exactly when all of them parse and the list starts
  with one round of them all (`Rotation.RotationReachesAll`); a repeat in the wrong place cuts
  endpoints off.
- A snapshot handle shows one state in every history exactly when it is pinned
  (`Paging.ShowsOneIffPinned`): an unpinned id that two nodes happen to share mixes their states
  (`Paging.SharedIdMixesStates`).
- UTF-16 text that passes the sniff comes back exactly when its bytes do not begin like another
  encoding's BOM (`Decoding.HeavyTextRoundTrips`, `Decoding.OtherBomMisleads`).
- A filling page cache lowers the cap only through pressure (`Sizing.FillingNeverLowersCap`,
  `Sizing.FilledCacheKeepsCapIff`, `Sizing.PressureLowersTheCap`).
- Normalizing a prefix first is harmless exactly when its normal form is not empty or it was
  empty to begin with (`Paths.PrefixLaw`).
- `NestedEnds::find` documents that the answer for a position that is no opener is cached; the
  code does not cache it, and the model follows the code. Such an answer depends on earlier
  queries (`Nested.NonOpenerDependsOnHistory`).

## Assumptions

Every shared operation is atomic. Counters, ids, lengths and times do not overflow 64 bits; 32-bit
term ids, spans and columns are explicit and wrap as a release build does. Clocks go forward, sleeps last at least as long as asked. A node does not
draw the same random snapshot id twice. Legacy decoders and the detector are parameters: replacing
is lossy exactly when the strict decoder fails, and windows-1252 maps every byte. Floating point is
real arithmetic with truncating casts. What the extractor finds in a file is given.

## Model

| member | source | states |
|---|---|---|
| Budget.StepWithin | crates/graph-cli/src/dataflow.rs:307-369 | every budget operation that the guards allow keeps the bytes in flight at most max(C, s + M), the scratch at most max(C, S), their sum and the recorded peak at most max(C, s + M) + S, for caps up to C, slack s, items up to M and requests up to S |
| Budget.RunWithin | crates/graph-cli/src/dataflow.rs:252-369 | the same bounds after every interleaving of acquires, releases, reservations and cap changes |
| Budget.OverCapIsAlone | crates/graph-cli/src/dataflow.rs:337-359 | a reservation goes over the cap only when no other scratch is held |
| Budget.BoundIsAttained | crates/graph-cli/src/dataflow.rs:307-359 | the bound on the sum is reached by some legal interleaving, so it is the best one |
| Budget.Monitor.constructor | crates/graph-cli/src/dataflow.rs:197-274 | a new budget is the empty ledger with a cap of at least one |
| Budget.Monitor.MoveCap | crates/graph-cli/src/dataflow.rs:252-274 | `set_cap` only moves the cap |
| Budget.Monitor.GiveBack | crates/graph-cli/src/dataflow.rs:324-328 | `release` takes the bytes off, saturating at zero |
| Budget.Monitor.GiveBackScratch | crates/graph-cli/src/dataflow.rs:362-369 | `release_scratch` takes the bytes off both counters |
| Budget.Monitor.Take | crates/graph-cli/src/dataflow.rs:307-322 | `acquire` waits through other threads' turns and adds its bytes in the first state that admits them, or gives up having changed nothing itself |
| Budget.Monitor.TakeScratch | crates/graph-cli/src/dataflow.rs:337-359 | `acquire_scratch` likewise, against whatever `oldest` answers each time |
| Batches.GreedyIsUnique | crates/graph-cli/src/lib.rs:1071-1079 | a list of files has at most one greedy partition into fixed batches |
| Batches.FirstBatchesAgree | crates/graph-cli/src/lib.rs:1071-1079 | two greedy partitions of the same files start with the same batch |
| Batches.OutlineIsOfLengths | crates/graph-cli/src/lib.rs:1071-1079 | files of the same lengths are parted into batches alike, whatever else differs |
| Batches.FilledIsBounded | crates/graph-cli/src/lib.rs:1126-1145 | a filled batch has at most 256 files and at most 32 MiB, or is one file |
| Writers.Writer.Receive | crates/graph-cli/src/lib.rs:1031-1036 | results arrive in the buffer under their walk sequence, whatever their order |
| Writers.Writer.Drain | crates/graph-cli/src/lib.rs:1085-1125 | the result at `next` moves on: skipped and failed files give their bytes back, a prepared one is held at what was read |
| Writers.Writer.DrainReady | crates/graph-cli/src/lib.rs:1080-1134 | the drain loop, up to a gap, an overflowing file or a full batch |
| Writers.Writer.Flush | crates/graph-cli/src/lib.rs:1135-1177 | the pending files are committed as one batch when the policy says so |
| Writers.Writer.Settle | crates/graph-cli/src/lib.rs:1178-1184 | with nothing pending everything held is given back |
| Writers.Writer.Commit | crates/graph-cli/src/lib.rs:1031-1203 | one pass of the writer loop is the specification's pass |
| Pipeline.ShapeKept | crates/graph-cli/src/lib.rs:789-908 | every step keeps entries in walk order through walk, admission, parsing and drain, and at most as many jobs out as threads |
| Accounts.BalancedKept | crates/graph-cli/src/lib.rs:1080-1184 | every step keeps the budget, the footprint, the handled and prepared counters equal to sums over where each entry is |
| Accounts.LedgerStep | crates/graph-cli/src/lib.rs:760-908 | what every pipeline step does to the budget is one legal budget operation that never saturates |
| Commits.GreedyKept | crates/graph-cli/src/lib.rs:1071-1177 | every step keeps the committed batches and the open one a greedy partition of the prepared files drained so far |
| Runs.Reachable | crates/graph-cli/src/lib.rs:789-908 | the whole invariant holds after every run |
| Runs.BudgetIsWhatIsOut | crates/graph-cli/src/lib.rs:1080-1184 | in every state of every run `used` is the bytes charged and not given back plus the scratch out |
| Runs.NoReleaseSaturates | crates/graph-cli/src/dataflow.rs:324-369 | in every run every release takes off no more than is there |
| Runs.FinishedRunBalances | crates/graph-cli/src/lib.rs:1080-1203 | a finished run has used, scratch and footprint zero, and handled exactly what was found, in files and bytes |
| Runs.PreparedBytesReturn | crates/graph-cli/src/lib.rs:1115-1182 | `prepared_bytes` ends at zero if and only if no prepared file shrank |
| Runs.EveryFileOnceInWalkOrder | crates/graph-cli/src/lib.rs:1019-1236 | in either mode the batches hold every prepared file once, in walk order, and the others are tallied in walk order |
| Runs.FixedBatchesAreGreedy | crates/graph-cli/src/lib.rs:1071-1146 | in deterministic mode the batches are the greedy partition, for every arrival order and walk timing |
| Runs.BoundariesAreOfLengths | crates/graph-cli/src/lib.rs:1071-1146 | two finished deterministic runs whose prepared files have the same lengths have the same batch boundaries |
| Runs.FixedBatchesAreDeterministic | crates/graph-cli/src/lib.rs:1071-1146 | two deterministic runs that prepare the same files commit the same batches, on any threads, caps and interleavings |
| Runs.FixedBatchesAreBounded | crates/graph-cli/src/lib.rs:1126-1145 | at every moment every fixed batch is at most 32 MiB or one file |
| Runs.MemoryIsBounded | crates/graph-cli/src/dataflow.rs:307-369 | the budget's bounds hold in every state of every pipeline run |
| Liveness.AdmissionIsOpen | crates/graph-cli/src/lib.rs:823-853 | with enough slack admission never waits on a batch that cannot close |
| Liveness.NeverStuck | crates/graph-cli/src/lib.rs:789-908 | in every reachable unfinished state, in both modes and under any cap, some step is enabled |
| Liveness.EveryMoveDescends | crates/graph-cli/src/lib.rs:789-908 | every step but a cap change lowers a measure |
| Liveness.RunsAreFinite | crates/graph-cli/src/lib.rs:789-908 | a run makes a bounded number of moves, however often the cap changes |
| Liveness.MaximalRunsFinish | crates/graph-cli/src/lib.rs:789-908 | a run that cannot go on has handled everything |
| Liveness.RunsCanFinish | crates/graph-cli/src/lib.rs:789-908 | from every point of every run there is a way to the end |
| Liveness.SourceSlackIsEnough | crates/graph-cli/src/lib.rs:831-835 | the slack `run_pipeline` passes is enough |
| Liveness.LessSlackGetsStuck | crates/graph-cli/src/lib.rs:823-835 | with less than one batch less one byte of slack a deterministic run can stall for good |
| Passes.PassIsActions | crates/graph-cli/src/lib.rs:1031-1203 | the writer's pass is a sequence of steps of the transition system with the same result |
| Passes.IdlePass | crates/graph-cli/src/lib.rs:1204-1236 | a pass that finds nothing changes nothing, so waiting is no step |
| Delimiters.EmptyStackIsBalanced | crates/graph-core/src/scan.rs:33-48 | reading delimiters leaves an empty stack exactly when they form a balanced word |
| Delimiters.MatchIsBalanced | crates/graph-core/src/scan.rs:28-50 | the scan answers j exactly when the delimiters from the opener to j are an opener, a balanced word and its closer |
| Delimiters.CloserIsUnique | crates/graph-core/src/scan.rs:28-50 | there is at most one such j |
| Delimiters.TableStep | crates/graph-core/src/scan.rs:65-77 | one token of a table pass keeps every opener's entry right or pending |
| Delimiters.TableDone | crates/graph-core/src/scan.rs:62-79 | after the pass every entry is the scan's answer |
| Scans.MatchingClose | crates/graph-core/src/scan.rs:28-50 | the loop is the scan over bracket tokens, trivia skipped |
| Scans.KeywordBlock | crates/graph-core/src/scan.rs:177-212 | the loop is the scan over keyword tokens, first listed pair first, in both case modes |
| Scans.CloseTable | crates/graph-core/src/scan.rs:62-79 | the one-pass table is `matching_close` at every index, mismatches included |
| Scans.KeywordCloseTable | crates/graph-core/src/scan.rs:220-251 | the one-pass table is `keyword_block` at every index, for every pair list and both case modes |
| Scans.Positions | crates/graph-core/src/scan.rs:89-92 | each token's last position in `code` |
| Scans.LastIsFound | crates/graph-core/src/scan.rs:81-96 | the last position is one a binary search may find, and the only one if and only if the token is listed once |
| Scans.CodeCloseTable | crates/graph-core/src/scan.rs:87-96 | every entry is the last listing of its token's closer |
| Scans.ListedIsLookedUp | crates/graph-core/src/scan.rs:81-96 | that is what looking the closer up and searching it in `code` may give, and the only such answer if and only if the closer is listed once |
| Scans.BinarySearchMayFind | crates/graph-core/src/scan.rs:81-86 | a binary search in a sorted list gives one of the answers so allowed |
| Scans.RepeatedCloserParts | crates/graph-core/src/scan.rs:81-96 | with a closer listed twice the table and a binary search differ |
| Scans.Cursor.PeekCode | crates/graph-core/src/scan.rs:503-508 | the next token that is no comment |
| Scans.Cursor.SkipBalanced | crates/graph-core/src/scan.rs:503-508 | jumps past the group at the cursor, or stays |
| Scans.Cursor.SkipBalancedWith | crates/graph-core/src/scan.rs:513-518 | the same with a table, given the table is `close_table` of the tokens |
| Nested.ScanSplits | crates/graph-core/src/scan.rs:270-276 | a scan at depth n + 1 is a scan at depth one and then, past its end, one at depth n |
| Nested.ScanMoves | crates/graph-core/src/scan.rs:306-343 | every position keeps what the scan knows: openers on the path, answers found, each opener pushed once |
| Nested.Look | crates/graph-core/src/scan.rs:298-343 | one scan answers the opener and every opener on its path |
| Nested.Record | crates/graph-core/src/scan.rs:344-351 | the cache only gains right answers and loses none |
| Nested.NestedEnds.constructor | crates/graph-core/src/scan.rs:286-290 | an empty cache |
| Nested.NestedEnds.Find | crates/graph-core/src/scan.rs:298-352 | for every history and mix of range ends the answer for an opener is the plain scan's, the cache stays right, and every opener is pushed at most once per range end |
| Nested.NonOpenerDependsOnHistory | crates/graph-core/src/scan.rs:292-298 | for a position that is no opener the answer depends on what was asked before |
| Codec.VarintRoundTrip | spikes/data-model/spike.rs:65-70 | a varint read gives back what was written and consumes exactly its bytes, wherever it stands |
| Codec.Put | spikes/data-model/spike.rs:65 | the loop appends the varint |
| Codec.Cur.Next | spikes/data-model/spike.rs:68-73 | the loop reads the number at the cursor and moves past it, or reports that the bytes run out; shifts are taken modulo 64 |
| Codec.ZigZagInverts | spikes/data-model/spike.rs:66-67 | the shift and exclusive-or forms of zigzag and its inverse undo each other over all 64-bit integers, both ways |
| Codec.ZigZagIs | spikes/data-model/spike.rs:66 | they interleave the numbers that are not negative with the negative ones |
| Codec.UnZigZagIs | spikes/data-model/spike.rs:67 | and take them apart again, within 64 signed bits |
| Bits.OrAdds | spikes/data-model/spike.rs:70 | or-ing in bits above those already there adds them |
| Bits.XorSign | spikes/data-model/spike.rs:66-67 | exclusive or with a sign word is the identity or the complement |
| Codec.TokEcho | spikes/data-model/spike.rs:86-122 | one encoded token, regular or not, is read back from its bytes and exactly those |
| Codec.StreamEcho | spikes/data-model/spike.rs:82-125 | decoding an encoded stream gives every token, on the lines the decoder counts |
| Codec.StreamRoundTrip | spikes/data-model/spike.rs:82-125 | it gives back the tokens themselves if and only if their lines are monotone |
| Codec.StreamKeepsAllButLines | spikes/data-model/spike.rs:82-125 | whatever the lines do, terms, classes, offsets and columns survive |
| Codec.Encode | spikes/data-model/spike.rs:82-104 | the loop writes the specified stream |
| Codec.Decode | spikes/data-model/spike.rs:106-125 | the loop reads what the specification reads, and fails where it fails |
| Containment.Settle | spikes/data-model/spike.rs:191-192 | popping the ended symbols leaves the last cover on top |
| Containment.SymbolParents | spikes/data-model/spike.rs:189-194 | the stack's parent of every symbol is the last earlier symbol covering its start |
| Containment.MergedParents | spikes/data-model/spike.rs:311-324 | in the merged pass so is every symbol's, and every token's owner is the last symbol covering it, which is what `search` finds |
| Containment.LastCoverIsInnermost | spikes/data-model/spike.rs:274 | when spans nest it is always the innermost enclosing symbol |
| Containment.LastCoverIsInnermostIff | spikes/data-model/spike.rs:274 | it always is if and only if wherever two symbols cross a later one covers the place and ends no later than the earlier of them |
| Containment.ShieldedCrossing | spikes/data-model/spike.rs:274 | symbols that cross and still give the innermost |
| Containment.CrossingSpansBreakIt | spikes/data-model/spike.rs:274 | when they cross it need not be |
| Postings.InternAllKeeps | spikes/data-model/spike.rs:195-199 | interning keeps the two dictionary tables inverse, changes nothing known and gives every token the id of its text |
| Postings.InternAllCounts | spikes/data-model/spike.rs:195-199 | interning adds exactly the new texts to the dictionary and counts them, wrapped or not |
| Postings.InternLoop | spikes/data-model/spike.rs:195-199 | the loop is the specification |
| Postings.OrdinalsAre | spikes/data-model/spike.rs:201-202 | the ordinals of a term are exactly its positions, ascending |
| Postings.PostingReads | spikes/data-model/spike.rs:205 | a posting reads back as its count and deltas, which sum to the ordinals |
| Index.TermsIgnoreLens | spikes/data-model/spike.rs:106-125 | terms and classes decode the same under any dictionary |
| Index.TermsOfEncoded | spikes/data-model/spike.rs:82-125 | the terms of an encoded stream are the ids it was given |
| Index.RemovePosts | spikes/data-model/spike.rs:222-223 | removing once per distinct term removes exactly the file's postings of those terms |
| Index.IndexRemove | spikes/data-model/spike.rs:219-224 | removing a file's stream and postings keeps the index right for every other file |
| Index.Group | spikes/data-model/spike.rs:201-202 | one pass gives every term its ordinals |
| Index.PutPosting | spikes/data-model/spike.rs:205 | the loop writes the posting |
| Index.AddPosts | spikes/data-model/spike.rs:201-207 | the loop adds exactly the postings of the indexed terms, with their ordinals |
| Index.IndexAdd | spikes/data-model/spike.rs:201-207 | adding a file's stream and postings keeps the index right |
| Index.IndexGrows | spikes/data-model/spike.rs:195-199 | a growing dictionary leaves the index right |
| Sorting.SortSorts | spikes/data-model/spike.rs:185-186 | the sorts order their input and lose nothing |
| Store.PreparedIsSorted | spikes/data-model/spike.rs:185-186 | a file's content is stored in order of start, longer symbols first |
| Dictionary.BodyGrows | spikes/data-model/spike.rs:195-200 | a stored stream stays the stream of its file while the dictionary grows |
| Dictionary.BodyReads | spikes/data-model/spike.rs:219-221 | a stored stream decodes under the current dictionary to its terms and places, and to its tokens if and only if the lines are monotone |
| Tree.FindIs | spikes/data-model/spike.rs:231-234 | the name lookups find a file exactly where the entity tree has it |
| Tree.TreeEnsured | spikes/data-model/spike.rs:174-179 | `ensure` keeps names and entities in step and makes at most one new entity |
| Tree.TreeCleared | spikes/data-model/spike.rs:215-218 | `remove_file_body` leaves none of the file's symbols and all of every other file's |
| Tree.TreeFilled | spikes/data-model/spike.rs:187-208 | a file's new symbols and record join the tree, parents and symbol names included |
| Tree.TreeDropped | spikes/data-model/spike.rs:234 | dropping the record and name of an emptied file leaves the tree right |
| Histories.BodiesCleared | spikes/data-model/spike.rs:219-224 | after removing a body the index is that of the remaining streams |
| Histories.BodiesFilled | spikes/data-model/spike.rs:195-207 | after adding one it is that of the streams with the new one |
| Histories.HoldsIngested | spikes/data-model/spike.rs:165-214 | an ingested batch, first or repeated, replaces exactly its files on the shelf |
| Histories.HoldsDeleted | spikes/data-model/spike.rs:226-237 | a delete takes out exactly its file and says whether it was there |
| Histories.RunHolds | spikes/data-model/spike.rs:162-237 | after every history of at most 2^32 different texts the tables hold the last version of every file not deleted since, and nothing else |
| Histories.RunCounted | spikes/data-model/spike.rs:195-199 | after every history the dictionary holds exactly the texts ingested, and its counter their number |
| Histories.IdsAreDistinctIff | spikes/data-model/spike.rs:195-199 | term ids tell the texts of a history apart if and only if there are at most 2^32 of them |
| Search.PostingsAgreeWithScan | spikes/data-model/spike.rs:248-280 | for every query, grain and filter, going through the postings gives the rows and counts of scanning every stream |
| Search.RowsCountHits | spikes/data-model/spike.rs:256-279 | a row is there exactly when some token matches in it, with the number of matches |
| Queries.AlwaysSearchable | spikes/data-model/spike.rs:258-269 | nothing `search` unwraps is ever missing |
| Queries.SearchAgreesAlways | spikes/data-model/spike.rs:165-280 | after every history (of at most 2^32 different texts) `search` through postings equals `search` by streams, for every query |
| Queries.PostingsAlways | spikes/data-model/spike.rs:165-237 | after every such history a text has a posting for a file exactly when the file's last version holds it and it is indexed, with exactly its places |
| Queries.StreamsAlways | spikes/data-model/spike.rs:165-237 | after every such history every file's stream decodes, with the terms, classes, offsets and columns of its last version, and with its spans if and only if its lines rise |
| Answers.SearchAnswersAlways | spikes/data-model/spike.rs:165-280 | after every such history, by every grain, a search has the row of a key exactly if some token of the last version of some file matches in it, with the number of those tokens over all files |
| Answers.RowsAreExpected | spikes/data-model/spike.rs:248-280 | the same of any tables that hold a shelf, by scanning |
| Answers.SymbolIdsAreApart | spikes/data-model/spike.rs:187-194 | the symbol ids of two files on the shelf never meet, so a row by symbol belongs to one file |
| Answers.RowOfOneFile | spikes/data-model/spike.rs:270-279 | a row by file, symbol or token counts the matches of its file alone |
| Prototype.RemoveFileBody | spikes/data-model/spike.rs:215-225 | the loops clear the file as specified |
| Prototype.AddSymbols | spikes/data-model/spike.rs:189-194 | the loops add the symbols and names as specified |
| Prototype.IngestFile | spikes/data-model/spike.rs:180-208 | one file of a batch, as specified |
| Prototype.SearchPostings | spikes/data-model/spike.rs:258-278 | the postings loop collects the specified rows |
| Prototype.SearchStreams | spikes/data-model/spike.rs:259-278 | so does the stream loop |
| Prototype.P.constructor | spikes/data-model/spike.rs:164 | an empty store holds the empty shelf |
| Prototype.P.IngestBatch | spikes/data-model/spike.rs:165-214 | the store holds the old shelf with the batch's files replaced, and the answer counts its files and tokens |
| Prototype.P.DeleteFile | spikes/data-model/spike.rs:226-237 | the store holds the old shelf without the file, and the answer says whether it was on it |
| Prototype.P.Search | spikes/data-model/spike.rs:248-280 | the rows are those of scanning every stream, whichever way they were found |
| Retry.RetrySleeps | crates/graph-client/src/conn.rs:632-669 | a retry sleeps for the least back-off unless it follows the first redirect in a row |
| Retry.TwoRetriesSleep | crates/graph-client/src/conn.rs:245-269 | any two retries in a row sleep at least min(min(base, cap) / 2, 250 ms) |
| Retry.LeastIsAttained | crates/graph-client/src/conn.rs:252-269 | two retries may sleep for exactly that |
| Retry.NoRetryPastDeadline | crates/graph-client/src/conn.rs:624-669 | no retry is scheduled past the deadline, all sleeps fit in the budget, and a retry starts late only by its own oversleep |
| Retry.RetriesAreBounded | crates/graph-client/src/conn.rs:596-671 | against every sequence of answers, the retries but one times half the least back-off fit in the budget |
| Retry.EveryRetryLeavesLess | crates/graph-client/src/conn.rs:613-670 | every retry lowers a measure, given a back-off |
| Retry.RefusedForever | crates/graph-client/src/conn.rs:262-269 | without one a refusing server and a still clock give any number of retries |
| Retry.EndsIffItBacksOff | crates/graph-client/src/conn.rs:596-671 | the retries are bounded over all worlds if and only if base is at least 1 ns and cap at least 2 ns |
| Retry.PinnedNeverMoves | crates/graph-client/src/conn.rs:614-631 | a pinned call sends only to its pin and never moves the active endpoint, over every run |
| Retry.FailureSays | crates/graph-client/src/conn.rs:674-691 | a write reports a status it would retry only when that is a transient refusal, and a read says there is no leader only when the server did |
| Retry.SuccIsMod | crates/graph-client/src/conn.rs:457-460 | the next index is one more modulo the number of endpoints |
| Rotation.WalkRounds | crates/graph-client/src/conn.rs:451-462 | rotating goes round the first endpoints in order |
| Rotation.RotationReachesAll | crates/graph-client/src/conn.rs:451-462 | rotating reaches every endpoint from everywhere if and only if all parse and the list starts with one round of them |
| Rotation.DistinctEndpointsAreReached | crates/graph-client/src/conn.rs:451-462 | n distinct endpoints that parse are all reached by n rotations |
| Rotation.RetriesRotate | crates/graph-client/src/conn.rs:635-669 | a call whose answers all make it rotate asks, after n of them, the endpoint n rotations on |
| Rotation.EveryEndpointIsAsked | crates/graph-client/src/conn.rs:451-462 | if rotating reaches every endpoint, as many such retries as there are endpoints ask each of them |
| Rotation.OneEndpointStays | crates/graph-client/src/conn.rs:451-455 | with fewer than two endpoints the client stays where it is |
| Client.Conn.SwitchTo | crates/graph-client/src/conn.rs:545-557 | the active endpoint moves if the address parses, and else stays |
| Client.Conn.Rotate | crates/graph-client/src/conn.rs:451-462 | the loop finds the next endpoint as specified |
| Client.Conn.Pin | crates/graph-client/src/conn.rs:470-488 | the handle is remembered with its node |
| Client.Conn.Unpin | crates/graph-client/src/conn.rs:491-496 | the handle's pin is forgotten, and no other |
| Client.Conn.Follow | crates/graph-client/src/conn.rs:619-663 | what an answer asks for, with the endpoint moved as specified, also when the clamp then stops the program |
| Client.Conn.CallAt | crates/graph-client/src/conn.rs:596-671 | the events are a run of retries and the round that stops it, or all retries if the given part of the world ends first; with a back-off any part longer than a stated bound is enough |
| Paging.HandleIsFrozen | crates/graph-client/src/reads.rs:308-326 | while a handle is open it shows the same rows, whatever is written |
| Paging.HandleIsAState | crates/graph-client/src/reads.rs:308-326 | those are the rows of a state its node had |
| Paging.SnapshotIsFrozen | crates/graph-client/src/reads.rs:340-350 | a pinned handle shows one state at every page |
| Paging.ShowsOneIffPinned | crates/graph-client/src/conn.rs:515-519 | a handle shows one state in every history if and only if it is pinned |
| Paging.HandlesAreBounded | crates/graph-client/src/reads.rs:397-414 | whatever the nodes do, no node ever shows more than some number of rows under a handle, so paging ends |
| Paging.Session.SearchPage | crates/graph-client/src/reads.rs:248-263 | a page is what some allowed node shows at that time |
| Paging.Session.PageAll | crates/graph-client/src/reads.rs:397-414 | under any handle the loop ends, every row is one that an allowed node shows at that place, and it stops only where such a node has no more; if the handle shows one state they are exactly its rows from the offset on |
| Paging.Session.OpenSnapshot | crates/graph-client/src/reads.rs:310-326 | the handle opens on the node's state and is pinned to that node |
| Paging.Session.CloseSnapshot | crates/graph-client/src/reads.rs:328-338 | the pin goes whatever becomes of the call |
| Paging.Session.Search | crates/graph-client/src/reads.rs:357-375 | under a live view or a pinned handle an answer is the rows of one single state of one node from the offset on (up to the limit), whatever happens between pages, and of a state during the call when the view is live; under any other handle every row is one that some node shows at that place, up to the limit or the end of such a handle |
| Paging.SharedIdMixesStates | crates/graph-client/src/conn.rs:515-519 | an unpinned id that two nodes share can give rows of no state |
| Utf16.ReplaceIs | crates/graph-core/src/encoding.rs:137-144 | the replacing decoder is lossy exactly when the strict one fails, and else agrees with it |
| Utf16.StrictIffEncoded | crates/graph-core/src/encoding.rs:223 | the strict decoder reads a text from exactly its own bytes, in either order, surrogate pairs included |
| Decoding.NeverLossy | crates/graph-core/src/encoding.rs:78-125 | without a BOM or a hint nothing is ever replaced |
| Decoding.NulMeansUtf16 | crates/graph-core/src/encoding.rs:203-253 | bytes with a NUL that are not binary are the UTF-16 bytes of the decoded text, which has no U+0000 |
| Decoding.OneOrderOnUtf8 | crates/graph-core/src/encoding.rs:216-234 | on valid UTF-8 at most one byte order passes the sniff |
| Decoding.Utf8IsItself | crates/graph-core/src/encoding.rs:102-135 | valid UTF-8 without NUL or JIS X 0208 designation decodes to itself and is not binary |
| Decoding.HeavyIsSniffed | crates/graph-core/src/encoding.rs:203-235 | a clean text with zero high bytes in half the window's units and zero low bytes in fewer than 1/16 is sniffed in the order it was written |
| Decoding.HeavyTextRoundTrips | crates/graph-core/src/encoding.rs:78-125 | such a text is never binary, and decodes back to itself in its order, nothing replaced, if and only if its bytes do not begin like another BOM |
| Decoding.OtherBomMisleads | crates/graph-core/src/encoding.rs:79-82 | a text that begins with U+FFFE is taken for the other order |
| Decoding.BomRoundTrips | crates/graph-core/src/encoding.rs:79-82 | a text under its own BOM comes back with the BOM, whatever the hint |
| Sizing.MemoryPolicy.constructor | crates/graph-cli/src/sysinfo.rs:653-673 | the first decision, with the cap at or above the floor |
| Sizing.MemoryPolicy.UpdateMeasured | crates/graph-cli/src/sysinfo.rs:697-719 | the new policy and answer are the specified ones; without an answer cap and pressure are unchanged, with one the pressure turned or the cap moved by more than a tenth |
| Sizing.StaysSound | crates/graph-cli/src/sysinfo.rs:697-719 | over every history of samples the estimate stays between 1 and 64 and the cap at or above the floor, and a fixed budget never moves |
| Sizing.PressureLasts | crates/graph-cli/src/sysinfo.rs:759-770 | pressure, once on, stays on through every run of samples with less than one and a half reserves free |
| Sizing.FloorHeapIsLeast | crates/graph-cli/src/sysinfo.rs:981 | the floor's heap is the least that holds the floor, and holds exactly it |
| Sizing.LargestCache | crates/graph-cli/src/sysinfo.rs:979-985 | a cache leaves the share at the floor if and only if it is at most the share less the floor's heap |
| Sizing.FitsTheFloor | crates/graph-cli/src/sysinfo.rs:968-992 | the fitted cache is never more than asked, is the largest that keeps the share at the floor unless the minimum binds, and the budget is exactly the floor |
| Sizing.FilledCacheKeepsCap | crates/graph-cli/src/sysinfo.rs:805-826 | a fall that is only the cache filling never lowers the cap of a sample without pressure |
| Sizing.FilledCacheKeepsCapIff | crates/graph-cli/src/sysinfo.rs:771-826 | in general it does not if and only if there is no pressure, twice the cap is held, or the cap was no more than a floor |
| Sizing.FreeCapHolds | crates/graph-cli/src/sysinfo.rs:805-826 | between any two points of a filling cache the cap of a machine without pressure never falls |
| Sizing.FillingNeverLowersCap | crates/graph-cli/src/sysinfo.rs:697-719 | over every run of readings that show only the cache filling the running cap never falls |
| Sizing.FilledCacheNeverLowersCap | crates/graph-cli/src/sysinfo.rs:653-719 | so it is from the first decision on |
| Sizing.PressureLowersTheCap | crates/graph-cli/src/sysinfo.rs:771-800 | a machine on which it does |
| Sizing.BudgetFits | crates/graph-cli/src/sysinfo.rs:18-24 | the cap is the floor, or times the growth per source byte at most the memory above the reserve |
| Sizing.CapIsAtMostTarget | crates/graph-cli/src/sysinfo.rs:822-826 | the cap is between the floor and the larger of floor and target |
| Paths.NormalizePath | crates/graph-core/src/language.rs:95-113 | the loop gives the normal form of the place the path resolves to |
| Paths.RenderMeans | crates/graph-core/src/language.rs:95-113 | the normal form of a place resolves to that place |
| Paths.Idempotent | crates/graph-core/src/language.rs:95-113 | normalizing twice is normalizing once |
| Paths.SameIffSamePlace | crates/graph-core/src/language.rs:81-94 | two paths get the same result if and only if they resolve to the same (absolute, up-count, names) |
| Paths.IsCanonical | crates/graph-core/src/language.rs:95-113 | results have no empty, `.` or backslash parts and `..` only as a leading run of a relative path; the paths left alone are exactly those |
| Paths.PrefixLaw | crates/graph-core/src/language.rs:95-113 | normalizing a prefix first changes nothing if and only if its normal form is not empty or it is |

## Left out

- Disk stops, database errors, cancellation and the exits they cause: a run of the pipeline model ends normally or not at all.
- The sampler thread, the disk guard, the trace recorder and the display: the sampler appears only as cap changes at arbitrary moments.
- `flush_batch` inside: a flush appends one batch; what the store skips as unchanged or refuses is not modelled.
- `read_and_prepare`, `work` and the extractors: the outcome, the length read, the footprint and the scratch requests of a file are given.
- A parse thread raises the footprint and the prepared bytes and leaves `inflight` in one step of the model, three in the source.
- Scratch reservations nested inside each other within one job: a job makes its reservations one at a time.
- `indent_block`, `code_index`, `span_between` and the rest of `Cursor` in `scan.rs`: they would only add easy members.
- The byte layout of the store's entity records: entities are values; their fields are written with the varints of `Codec`. `unchanged`, `symbols` and `describe` of the prototype are reads that would add little.
- Histories.RunHolds: asks for at most 2^32 different texts in the history, the exact condition for term ids to be distinct (`Histories.IdsAreDistinctIff`).
- Queries.SearchAgreesAlways: asks for the same; so do the next three.
- Queries.PostingsAlways: for histories whose term ids are distinct.
- Queries.StreamsAlways: for histories whose term ids are distinct.
- Answers.SearchAnswersAlways: for histories whose term ids are distinct.
- Prototype.P.IngestBatch: asks that the store and the batch together hold at most 2^32 different texts, without which term ids collide (`Histories.IdsAreDistinctIff`).
- Prototype.AddSymbols: finds all parents with the stack first and inserts the records after, where the source does both in one loop.
- Model E's own tables in `ingest_e`: only its merge of symbols and tokens is modelled, for the parents it finds.
- Prototype.P.Search: returns the rows, where the source returns their number and the sum of their counts.
- Several calls on one connection at once: the active endpoint and the pins change only by the call at hand.
- `connect`, `hello_on`, `call_once` and the read log of the client.
- Sizing.FillingNeverLowersCap: asks for readings that leave the growth estimate alone; a new estimate moves the cap for its own reasons.
- Retry.FailureSays: says which statuses a failure may carry, not the message texts of `map_status`.
- Paging.Session.Search: also stands for `search_symbols`, whose paging is the same code; the capability check and the query deadline of the latter are not modelled.
- Snapshot expiry by age, connection close or reaping: a handle may disappear at any moment, for no stated reason.
- Paging.Session.Ask: a call is answered at one moment or fails; the retries inside it are the subject of `Retry`.
- Legacy code pages, `chardetng`, labels and `ansi` resolution: parameters of `Decoding`, or absent.
- Operating system probes and `DiskPolicy` in `sysinfo.rs`, the reasons and warnings as text, and f64 rounding.
- Raft, gRPC, redb, the tokenizers, the servers and the command line.
