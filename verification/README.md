# The Touchstone badge ledger, modelled and proved in Dafny

Touchstone is a node that overlays tokens ("badges") on a UTXO chain. A badge output is an output whose
locking script has a fixed layout carrying a public-key hash and an int64 amount; a badge input is an input
whose signature script ends in the bytes `badge`. A transaction without badge inputs issues a new badge named
after its txid; one with badge inputs moves or burns the badge it consumes. Each node interprets
transactions into rows of a Mongo table, answers balances from those rows, prunes rows it is sure are spent,
builds transfer transactions for users, and pulls transactions it lacks from its peers by comparing digests of
ten-block partitions.

This project models that ledger and proves what its parts promise each other. `dafny verify dfyconfig.toml`
checks everything.

## How the model is laid out

| module | what it holds |
|---|---|
| `Int64` | Go's wrapping int64 arithmetic |
| `Script` | the locking script, its printer and parser, `hex`, `strings.Index` |
| `Model` | transactions, rows, and the interpreter's pure steps |
| `Chains` | the recursive reference meaning of a transaction over the acyclic spend graph |
| `Store`, `Workers` | the store invariant, and the state machine of interleaved workers |
| `Closing`, `Reopening` | when CLOSED is final, and exactly which transactions can be reopened when it is not |
| `Sums`, `Conservation`, `Protocol` | totals, conservation, absence of overflow; the protocol's rules in exact integers; provenance |
| `Sorting`, `Batches` | the in-place topological sort; one sorted pass suffices |
| `Server` | the node as a class: tables mutated row by row, loops over transactions, partitions and peers |
| `Partitions`, `Convergence`, `Syncing`, `Pruning` | what the sync and pruning methods of `Server` rest on |
| `Keys`, `Views`, `History` | unspent-output views, balances, histories, the address table |
| `Wallet`, `Delivery`, `Undelivered` | coin selection and transaction building; what the interpreter makes of the result; requests that fail |
| `Storage`, `Recording` | raw transactions in segments with a commit row; the ledger's records as a view of that table |
| `Orders` | sorted queries |

Two definitions of what a transaction means carry the main results. `Chains.Meaning` reads the interpreter
recursively over a chain of transactions, with no store, no order of arrival and no retries, but with its
int64 arithmetic. `Protocol.Token` states the protocol of the repository's README as rules, in exact integers.
The step-by-step code refines the first in every interleaving (`Workers.StoredRowsAreMeaning`), and the first
equals the second on every chain without double spends (`Protocol.InterpreterIsProtocol`).

## What is assumed, and where the code needs care

- A txid identifies a transaction, and the spend graph is acyclic: `Chains.Chain` carries a rank as witness.
  A parent outside the chain holds nothing.
- `Conservation.NoDoubleSpend` says that badge inputs spend each outpoint at most once. The node does not
  check this (`GetTxPoint` ignores whether a row is spent), so it is a hypothesis about the base chain. It is
  assumed only where the word appears in a `requires`.
- On an illegal vin, `GetTxPoint` returns a nil row (services/touchstone_server.go:187), and `ParseMsgTx`
  notes the fact at line 212 and then dereferences that row at line 215. The model follows the evident
  intent of lines 212 and 234-236: that vin adds no row, and the transaction gets no vouts. In `Workers` a
  worker may also stop at any point, so the safety results cover the panic as well. `Closing.NilIsIllegalVin` and
  `Closing.PanicsExactly` say exactly when the code as written panics; wherever it does not, the model is the code.
- The database either answers or stops: an error ends a call between two writes. `Workers.Step.Stop` and the
  `writes` parameter of `Storage.TxInfoRepository.AddMsgTxInfo` are those stops. The methods of `Server` are
  the error-free calls.
- CLOSED is not permanent when workers interleave freely: a worker that found a parent unknown may write OPEN after
  another worker wrote CLOSED (lines 313-316). It is final in every interleaving in which no transaction is processed
  by two workers at once (`Closing.ClosedIsFinal`), whatever else is concurrent. Without that exclusion, which
  `SyncTxs` does not give because it holds only a read lock (line 438), a transaction can be reopened if and only if it has a badge
  input and all its badge ancestors are on the chain (`Reopening.ReopenableExactly`).
- `GetMsgTxInfo` never advances its offset, so from 64 rows on (more than 62 segments) it reads the same page
  for ever. `Storage.RoundTrip` proves the read works exactly below that bound, and `Storage.LongTextIsNeverRead` gives
  a text above it. `SyncTxs` reads through it, here for transactions still open (line 415) and on the peer for those it
  asks for (`GetTxs`, lines 756-774), so it too may never return. A transaction the caller hands over
  (`LocalSingleTxSource`, lines 34-69) is read from no table, so a long one is recorded and closed; that is how a closed
  transaction comes to be illegible. The model's sync methods return `stalled` for that;
  `SyncTxs` stalls exactly when it has to read a transaction that does not fit. Results about a finished call are
  stated for calls that do not stall, and convergence assumes that what the peer has closed fits
  (`Partitions.Legible`, part of `Convergence.PeerOk`), from which it follows that no call stalls.
- The wallet prints only the script hash of an address, and the parser makes a P2PKH address of it
  (util/bitcoin_util.go:138). A request whose amounts and burn add up past 2^63, whose total is zero although it
  pays something out, or which pays to anything but a P2PKH address of 20 bytes (a P2SH or a witness address, say) is built but not delivered.
  `Delivery.BuilderMeetsInterpreter` is an equivalence with those conditions on the request, and on the change address
  only if there is change; `Delivery.PayableIsDelivered` is the form a caller can check without knowing the rows.
  `Undelivered` shows each failure. The burn is non-negative because controller/http_controller.go:184 refuses others.
- An address is its kind and its script hash and stands for its canonical text on one network; decoding an address text
  either yields one or fails. Serialization
  is a function `Config.text`. SHA-256 over a list of txids is a function `Config.hash`, assumed injective only in
  `Partitions.InjectiveHash`. The base chain's answers (`mapi`), clocks and current heights are parameters.
- A query without a total order returns its rows in any order (`Views.IsQuery`), so results about views hold for
  every order the database may choose.
- A stale partition is not always marked. A height update (`CheckTxState`, line 823) marks only the old height, and a
  restart loses the marks, which are in memory. No sync method assumes tracking: each keeps, partition by partition,
  whatever was tracked (`Syncing.Keeps`), and `SyncState(true)`, the call of line 734, re-marks everything up to the current
  height and leaves it with current digests, however stale and unmarked it was.
- Convergence holds under `Syncing.Agreed` and `Convergence.PeerOk`: the digest is injective, the base chain reports
  one height for each transaction to both nodes, a badge parent of a confirmed transaction is confirmed no later and
  not below the start height, and the peer's closed set contains its badge parents, is legible as said above, and has a
  current table whose ids are contiguous from 0. On a node driven by whole calls one at a time, that the closed set
  contains its badge parents is no assumption: such a node stays tidy (`Closing.Tidy`, kept by every method of
  `Server` that processes or prunes), and `Syncing.TidyParents` derives it. Partitions only one side holds are not compared by the code, and nothing is claimed of them.
- A peer answers from a frozen snapshot (`Convergence.Peer`) for the duration of a pass.

## Main results

1. Every interleaving refines one recursive meaning: `Workers.RunKeeps`, `Workers.StoredRowsAreMeaning`,
   `Workers.OrderIndependence`, `Workers.DoubleCheckSound`.
2. The interpreter is the protocol, in exact integers: `Protocol.InterpreterIsProtocol`, resting on
   `Conservation.NoOverflow`.
3. Conservation and provenance at every single step: `Conservation.UnspentNeverExceedsIssued`,
   `Conservation.OnlyIssuanceRaises`, `Protocol.Provenance`, `Protocol.StoredVoutIsClean`.
4. When CLOSED is final, and when it is not: `Closing.ClosedIsFinal`, `Reopening.ReopenableExactly`.
5. Sorting and one pass: `Sorting.SortMsgTx`, `Batches.OnePass`, `Server.TouchstoneServer.ProcessMsgTxs`.
6. Sync: `Server.TouchstoneServer.SyncTxs`, `Server.TouchstoneServer.SyncPatitions`,
   `Server.TouchstoneServer.SyncState`, `Server.PullFromEachOther`.
7. Views: `Views.PruningIsInvisible`, `Views.LocalViewIsGlobal`, `Views.BalanceIsExact`, `History.HistoryIsBalance`.
8. Wallet: `Delivery.CoinSelectionIsComplete`, `Delivery.BuilderMeetsInterpreter`.
9. Script and storage round trips: `Script.ParserInvertsPrinter`, `Storage.RoundTrip`, `Recording.RecordedIsRead`.

The rows below list these and the members they rest on, module by module.

## Model

| member | source | states |
|---|---|---|
| Script.ParserInvertsPrinter | util/bitcoin_util.go:83-151 | the parser reads (hash, value) from a script if and only if the hash has 20 bytes, the value is a non-negative int64 and the script is the one the printer makes of them |
| Script.SuffixOccurrencesDoNotOverlap | util/bitcoin_util.go:23 | the hexadecimal code suffix has no proper border: two of its occurrences in any text are at least its length apart |
| Script.SuffixIndex | util/bitcoin_util.go:128-131 | whatever the hash bytes, `strings.Index` on the hexadecimal text yields the expected position if and only if the suffix bytes are at their place |
| Script.IndexFrom | util/bitcoin_util.go:128 | `strings.Index` from a position: the first occurrence at or after it, or -1 when there is none |
| Script.TextChecksLayout | util/bitcoin_util.go:118-137 | the checks on length and hexadecimal text pass exactly for the byte layout prefix, 20 bytes, suffix, OP_RETURN, push of 8 |
| Script.LittleEndianRoundTrip | util/bitcoin_util.go:72-81 | reading back a little-endian encoding gives the number |
| Script.FromLittleEndianRoundTrip | util/bitcoin_util.go:143 | encoding a little-endian reading gives the bytes, for every byte string |
| Script.OtherHashLengthsAreNotBadges | util/bitcoin_util.go:96-98 | a script printed for a hash of any other length is not a badge output |
| Script.PrintedText | util/bitcoin_util.go:19-33 | the hexadecimal text of every printed script, written out around the hash and the amount |
| Model.BadgeVinEndsInFlag | services/touchstone_server.go:198 | an input is a badge input if and only if its signature script is anything followed by the five bytes of the text "badge" |
| Chains.VinCopiesVout | services/touchstone_server.go:215-232 | a vin row names a vout row of an older transaction and copies its address and code and its negated value, without overflow |
| Chains.VoutRows | services/touchstone_server.go:242-274 | every vout row is the badge output at its index, under one code, with a non-negative int64 value, and indexes ascend |
| Chains.ScannedIllegal | services/touchstone_server.go:197-236 | the scan is illegal exactly when some badge input spends an outpoint that holds nothing |
| Chains.StampedMeaning | services/touchstone_server.go:193-276 | the meaning is the same row by row whatever the timestamp of the call |
| Store.AddPointKeeps | services/touchstone_server.go:285-301 | a single insert, vins before vouts, keeps the store invariant: rows are rows of a meaning, a stored vout has all its transaction's vins stored, a stored vin has its vout stored |
| Store.MarkKeeps | services/touchstone_server.go:689-715 | marking a spent vout, or a vin whose vout is marked, keeps the store and mark invariants and changes no content |
| Workers.ApplyKeeps | services/touchstone_server.go:158-323 | every single read, insert, state write, mark, start and stop of any worker keeps the invariant of the store and of every other worker |
| Workers.RunKeeps | services/touchstone_server.go:158-323 | so does every finite run of the interleaved system, and rows are never lost or changed in content |
| Workers.StoredRowsAreMeaning | services/touchstone_server.go:158-323 | in every reachable state a stored row is, up to timestamp and mark, a row of its transaction's reference meaning; a CLOSED transaction has exactly the keys of its meaning stored |
| Workers.OrderIndependence | services/touchstone_server.go:158-323 | any two runs (any order, retries, OPEN outcomes, duplicates, stops) that closed a transaction hold the same rows for it |
| Workers.DoubleCheckSound | services/touchstone_server.go:158-191 | a worker at its third read misses the row if and only if the parent's meaning really lacks that outpoint |
| Workers.ProcessIsRun | services/touchstone_server.go:305-323 | one undisturbed ProcessMsgTx is a run of the interleaved system, so results about runs cover it |
| Workers.ProcessKeeps | services/touchstone_server.go:305-323 | an undisturbed ProcessMsgTx keeps the ledger invariant and loses no row |
| Closing.ReprocessingIsIdle | services/touchstone_server.go:305-323 | processing a closed transaction again, at any later time, leaves the whole ledger as it is |
| Closing.ClosedIsFinal | services/touchstone_server.go:305-323 | in every interleaving in which no transaction is processed by two workers at once, a closed transaction stays closed through every further such run, and processing it again is idle |
| Closing.ProcessDecides | services/touchstone_server.go:305-323 | a recorded transaction ends CLOSED if and only if every badge input is stored or its parent closed, else OPEN with "unknow utxo" and no row added; no other transaction's record changes |
| Closing.ApplyOrderly | services/touchstone_server.go:158-323 | no single step of such an interleaving takes CLOSED back, and the invariant that shows it is kept |
| Closing.NilIsIllegalVin | services/touchstone_server.go:203-219 | the code as written dereferences a nil row at an input exactly when all badge inputs up to it are known and it spends, by the meaning of its parent, nothing |
| Closing.PanicsExactly | services/touchstone_server.go:197-219 | on a transaction whose badge inputs are all known, the code as written panics if and only if one of them is an illegal vin, which is when the meaning is illegal |
| Closing.ProcessTidy | services/touchstone_server.go:305-323 | whole calls on recorded transactions keep every stored row in a closed transaction and every closed transaction parsable |
| Reopening.ReopenableExactly | services/touchstone_server.go:305-323 | some unrestricted run takes CLOSED back from a transaction if and only if it has a badge input and all its badge ancestors are on the chain |
| Reopening.ClosableReopens | services/touchstone_server.go:305-323 | for each such transaction, a reachable state and a step that reopens it |
| Reopening.ClosedIsNotPermanent | services/touchstone_server.go:305-323 | a concrete chain, reachable state and step that reopen a closed transaction |
| Conservation.NoOverflow | services/touchstone_server.go:215-219 | without double spends, what a transaction's vins consume of any one badge fits int64, by conservation among its ancestors |
| Conservation.TransactionConserves | services/touchstone_server.go:238-274 | a transaction creates at most what it consumes, or issues at most the cap |
| Conservation.UnspentNeverExceedsIssued | services/touchstone_server.go:193-301 | at every moment of every interleaved run, the unspent total of a badge lies between zero and what its one issuing transaction created, which fits int64 |
| Conservation.OnlyIssuanceRaises | services/touchstone_server.go:285-301 | at every moment, the stored rows of a transaction other than the issuing one contribute nothing positive to a badge, because vins are written before vouts |
| Conservation.StoredCopies | services/touchstone_server.go:215-232 | a stored vin has the address, code and negated value of the stored vout it spends |
| Protocol.InterpreterIsProtocol | README.md:97-198 | without double spends the interpreter gives each outpoint exactly what the protocol's rules give it, so its int64 arithmetic never departs from exact integers |
| Protocol.AcceptsIsObeys | services/touchstone_server.go:234-275 | the interpreter accepts a transaction's badge outputs if and only if no badge input is empty, all are of one badge, and the claim is covered (or it is an issuance within the cap); the badge it assigns is the protocol's |
| Protocol.StoredVoutsFollowProtocol | services/touchstone_server.go:193-301 | every stored vout, in every interleaved run, is the token the protocol gives its outpoint |
| Protocol.IssuedIsClaimed | README.md:101-142 | what the issuing transaction of a badge created, the bound of the conservation results, is what its badge outputs claim if it has no badge input and claims at most 2^63-1, and otherwise nothing |
| Protocol.Provenance | services/touchstone_server.go:215-275 | each stored vout's code is the txid of a transaction without badge inputs, itself processed with a stored vout of that code, reached by following stored vins of that same badge |
| Protocol.StoredVoutIsClean | services/touchstone_server.go:212-241 | a transaction with a stored vout has no illegal vin and mixes no badges |
| Sorting.SortMsgTx | util/bitcoin_util.go:153-184 | terminates with a permutation for every input; in topological order for every acyclic batch, and only for acyclic ones when txids identify transactions |
| Sorting.HasPre | util/bitcoin_util.go:165-174 | the inner loop reports exactly whether some input waits for an unplaced parent in the batch |
| Sorting.NextUnblocked | util/bitcoin_util.go:164-181 | the middle loop finds the first transaction from a position on that waits for nothing, or shows that all wait |
| Sorting.PlaceNext | util/bitcoin_util.go:178-180 | swapping an unblocked transaction forward extends the sorted prefix by one |
| Sorting.StuckMeansCyclic | util/bitcoin_util.go:160-182 | a round that places nothing proves the batch cyclic |
| Sorting.TopologicalIsAcyclic | util/bitcoin_util.go:153-184 | a batch in topological order is acyclic |
| Batches.TallyDecides | services/touchstone_server.go:215-248 | the badgeValues map has more than one entry exactly when the vins mix badges; otherwise its entry is the int64 total of all vins under their code |
| Batches.ParseIsMeaning | services/touchstone_server.go:193-276 | on every ledger that satisfies the invariant, a parse that succeeds is the reference meaning |
| Batches.OnePass | services/touchstone_server.go:335-355 | if every badge parent is closed or in the batch, one pass in topological order closes every transaction and every outcome is a success |
| Batches.PassReports | services/touchstone_server.go:335-355 | a pass reports only meanings of its transactions, and the meaning of every transaction it closes |
| Batches.ParsedAreNew | services/touchstone_server.go:220-231 | every row a parse yields is of its transaction, carries the time of the parse and is not marked spent; a vout row names no previous outpoint |
| Closing.PassVerdicts | services/touchstone_server.go:335-355 | in a pass in topological order each call succeeds exactly when its transaction ends closed, however often the batch lists it |
| Closing.FailedIsOpen | services/touchstone_server.go:335-355 | so what ProcessMsgTxs reports as failed is exactly what it leaves open |
| Server.TouchstoneServer.GetTxPoint | services/touchstone_server.go:158-191 | the row, "unknow utxo" or "illegal vin", as the undisturbed lookup function says |
| Server.TouchstoneServer.ScanTxIns | services/touchstone_server.go:194-233 | the vin loop computes the scan function and a map holding each badge's int64 total |
| Server.TouchstoneServer.TakeTxOuts | services/touchstone_server.go:250-274 | the vout loop with its running budget and early return is the recursive reading of the outputs |
| Server.TouchstoneServer.ParseMsgTx | services/touchstone_server.go:193-276 | the loops, the map and the early returns together compute the parse function |
| Server.TouchstoneServer.ParseAndAddTxPoints | services/touchstone_server.go:278-303 | inserts exactly the parsed rows, vins first, leaving existing rows as they are; nothing on an error |
| Server.TouchstoneServer.SetMsgTxState | models/transaction_info.go:88-102 | sets the state of a recorded transaction only, and fails otherwise |
| Server.TouchstoneServer.ProcessMsgTx | services/touchstone_server.go:305-323 | the new ledger and the outcome: closed with its rows, open on an unknown parent, an error without a row to update |
| Server.TouchstoneServer.ProcessMsgTxs | services/touchstone_server.go:335-355 | processes a permutation of the batch in order, topological if the batch is acyclic, and reports successes and failures apart; if the batch is acyclic and supplied, everything ends closed and nothing is reported, whatever the input order |
| Server.TouchstoneServer.AddNeedRecomputehashPartitionByHeight | services/touchstone_server.go:112-119 | marks the partition of a height at or above the start height, and nothing else |
| Server.TouchstoneServer.ComputePartitionHash | services/touchstone_server.go:490-513 | the digest of a list that holds exactly the closed txids at the ten heights of the partition, each once, in dictionary order: of any two, the one that is a prefix of the other or has the smaller character at their first difference comes first |
| Server.TouchstoneServer.ComputeAndSetPartitionHash | services/touchstone_server.go:515-530 | stores the current digest of one partition, added or updated, and changes no other |
| Server.TouchstoneServer.ClearCacheAndSetHash | services/touchstone_server.go:121-144 | clears the marks; every marked partition except -1 becomes current and the others keep their digest |
| Server.TouchstoneServer.CollectTxs | services/touchstone_server.go:377-425 | sorts the request into closed here, to process again, to fetch, and refused by the base chain, marking only partitions of requested transactions; stalls exactly on an open transaction that cannot be read back |
| Server.TouchstoneServer.GetTxsStalls | services/touchstone_server.go:756-774 | an asked peer never answers exactly when it holds a requested transaction that cannot be read back; a caller who hands one over always does |
| Server.TouchstoneServer.FetchTxs | services/touchstone_server.go:427-478 | records as NEW, at the reported height, exactly what the source has of the missing ones, marks their partitions, and reports exactly the rest |
| Server.TouchstoneServer.SyncTxs | services/touchstone_server.go:376-488 | never returns exactly when this node or an asked peer has to read a transaction of more than 62 segments; when it returns, a requested transaction is among the errors if and only if it is not closed afterwards (refused, not found, or left open by processing), and closed ones, inventories and errors together number the request; keeps the ledger invariant, everything closed, tracked partitions and tidiness; only requested transactions change, a new one is recorded at its block height or at -1 without a block, each newly closed one has its partition marked and its meaning reported; if all is fetchable and badge parents are closed or requested, everything requested ends closed |
| Server.TouchstoneServer.GetPartitionInfos | models/partition_info.go:46-50 | a page of at most ten rows of the partition table in id order, shorter only at its end |
| Server.TouchstoneServer.CompareDigests | services/touchstone_server.go:551-575 | the ids at which the two pages differ position by position; although positions are compared and not ids, on contiguous tables these are exactly the partitions of the page that differ |
| Server.TouchstoneServer.GetPartitionsTxids | services/touchstone_server.go:962-987 | exactly the peer's closed txids of the given partitions, each once |
| Server.TouchstoneServer.SyncPage | services/touchstone_server.go:545-598 | one peer at one page: tracked partitions stay tracked, nothing stays marked once it returns, and a ready page ends pulled without stalling |
| Server.TouchstoneServer.SyncPatitions | services/touchstone_server.go:532-602 | assumes nothing about the marks: a partition that is marked when stale stays so, and after a page it is not stale; a pass from 0 over a whole tracked table, with legible peers, returns and leaves every peer's closed transactions closed here in every partition both sides hold |
| Server.TouchstoneServer.SyncUnconfirmTx | services/touchstone_server.go:604-618 | keeps the ledger invariant, the tracking of each partition that was tracked, and everything closed; when it returns, whatever a peer offers at heights -1 and 0 (known to the base chain, readable, badge parents along or closed) is closed here; it returns when the peers are legible |
| Server.TouchstoneServer.SyncState | services/touchstone_server.go:620-643 | from any marks and any stale digests: when it returns, whatever a peer offers closed at height -1 or 0 is closed here, and every partition the current height calls for (from 0 when syncing all, else from the last stored one) is stored with a current digest; syncing all from legible peers returns and leaves the whole table current and every peer's closed transactions closed here in every partition both hold |
| Server.TouchstoneServer.MarkAndSync | services/touchstone_server.go:639-642 | whatever was stale or unmarked before, the partitions from the start up to the expected count end stored with current digests, and a full pass catches up with every peer |
| Server.TouchstoneServer.MarkPartitions | services/touchstone_server.go:639-641 | marks exactly the partitions from the start up to the expected count, keeping earlier marks |
| Server.PullFromEachOther | services/touchstone_server.go:532-602 | two nodes that pull from each other end with the union of their closed sets, equal digests, and the same rows up to timestamp and mark for every closed transaction, in every partition both hold |
| Server.PullOnce | services/touchstone_server.go:532-602 | a pass against one peer returns, is a pull from it, and leaves a node fit to be pulled from |
| Server.TouchstoneServer.SetTxPointState | models/tx_point.go:125-138 | marks one existing row spent, and fails when there is none |
| Server.TouchstoneServer.SetSpent | services/touchstone_server.go:689-715 | marks exactly the unmarked vins with a timestamp more than 3600 seconds back whose transaction is confirmed more than 20 blocks deep, and the vouts they spend; changes nothing else and keeps a tidy ledger tidy; never fails when all rows belong to recorded transactions |
| Partitions.DigestDecides | services/touchstone_server.go:490-513 | with an injective digest, digests are equal if and only if the closed sets are |
| Partitions.ExpectedIsExact | services/touchstone_server.go:633 | every height from the start height to the current one has its partition below the expected count, and the last expected partition is that of the current height |
| Partitions.PartitionIsTenBlocks | services/touchstone_server.go:112-119 | the partition of a height is the ten blocks it lies in |
| Orders.StringLessIsBefore | models/transaction_info.go:255 | the order of txids is that of a dictionary |
| Orders.DifferenceDecides | models/transaction_info.go:255 | two txids that first differ at a character are ordered by it, whatever follows |
| Orders.PrefixIsBefore | models/transaction_info.go:255 | a proper prefix comes before its extensions |
| Partitions.MarkingTracks | services/touchstone_server.go:112-119 | if every transaction that becomes closed has its partition marked, each partition that was marked when stale still is |
| Partitions.RecomputedTracks | services/touchstone_server.go:129-144 | taking the marks and recomputing the marked partitions keeps each partition tracked |
| Partitions.RecomputedIsFresh | services/touchstone_server.go:129-144 | recomputing the marked partitions leaves none stale |
| Partitions.ContiguousPage | models/partition_info.go:46-50 | on a contiguous table position i of a page is partition offset + i |
| Convergence.AskedIsSupplied | services/touchstone_server.go:545-598 | what is asked of a peer comes with its badge parents or finds them closed here, because parents are never higher and earlier partitions are caught up with |
| Convergence.ComparisonIsExact | services/touchstone_server.go:556-575 | the position-wise comparison of two pages names exactly the differing partitions |
| Convergence.PageCaughtUp | services/touchstone_server.go:545-598 | once everything asked is closed, no closed transaction of the peer is missing below the end of the page |
| Convergence.MergedIn | services/touchstone_server.go:532-602 | after a pull, a partition both hold has exactly the union of the two closed sets |
| Convergence.PullEachWay | services/touchstone_server.go:532-602 | a pull each way makes closed sets and digests equal in every partition both hold |
| Syncing.SyncEffect | services/touchstone_server.go:376-488 | processing changes only requested, not yet closed rows whose partition is marked |
| Syncing.BatchIsSupplied | services/touchstone_server.go:382-479 | a fetchable request gives a batch whose badge parents are all closed or in it |
| Syncing.NextPeer | services/touchstone_server.go:545-598 | pulling from one more peer keeps what was caught up with from the others |
| Syncing.TidyParents | services/touchstone_server.go:305-323 | on a ledger driven by whole calls, the badge parents of a closed transaction are closed |
| Syncing.NothingMissing | services/touchstone_server.go:382-478 | a fetchable request leaves neither loop of SyncTxs anything to report |
| Syncing.SyncReports | services/touchstone_server.go:479-487 | SyncTxs reports the meaning of every transaction it closes, and only meanings of requested ones |
| Syncing.SyncErrors | services/touchstone_server.go:401-481 | what the two loops and the pass report together is exactly what is not closed afterwards |
| Syncing.SyncedHeights | services/touchstone_server.go:451-454 | a transaction recorded by SyncTxs has the reported block height, or -1 when the base chain names no block |
| Pruning.PruneOne | services/touchstone_server.go:704-711 | the two marks of one vin, vout first, find both rows stored and keep the ledger invariant |
| Keys.KeyInjective | util/common.go:50-52 | two textual outpoint keys are equal if and only if txid and index are |
| Keys.DigitsDenote | util/common.go:50-52 | the digits written for an index denote it |
| Views.OneUser | models/addr_info.go:113-117 | an address is found for an application, user and user index exactly when its row names all three |
| Views.UsersPartition | models/addr_info.go:30-44 | different triples share no address, and every address of the table is some triple's |
| Views.AddrInfoRepository.AddOrUpdateAddrInfo | models/addr_info.go:46-64 | an address belongs to its last user only: the application, user and user index of the new row gain it, and every other triple loses it |
| Views.QueryRows | models/tx_point.go:105-116 | the rows of a badge at some addresses, each once, with or without those marked spent |
| Views.CalculateUtxos | services/touchstone_server.go:1028-1050 | exactly the vouts no vin among the rows spends, in order, although the comparison is of strings |
| Views.SumTxPoints | services/touchstone_server.go:1092-1098 | the int64 value of the exact sum |
| Views.PruningIsInvisible | services/touchstone_server.go:689-715 | in every reachable state, between any two writes, the unspent set computed from unmarked rows is the one computed from all rows |
| Views.LocalViewIsGlobal | services/touchstone_server.go:1052-1080 | over the unmarked rows of any addresses and badge, CalculateUtxos yields exactly the globally unspent outputs there |
| Views.BalanceBounds | services/touchstone_server.go:1092-1122 | a balance lies between zero and the badge's unspent total, which is at most the issuance |
| Views.BalanceIsExact | services/touchstone_server.go:1104-1122 | the balance computed in int64 is the exact sum of the globally unspent outputs |
| Views.UserBalanceIsSum | models/addr_info.go:113-159 | a user's balance is the sum of the balances of the user's addresses |
| History.TxPoints2AddrInventory | services/touchstone_server.go:1145-1162 | one entry per transaction, with its first row's address and time and the int64 total of its rows |
| History.EntryFits | services/touchstone_server.go:1159 | each entry's total fits int64 |
| History.HistoryIsBalance | services/touchstone_server.go:1145-1178 | the values of a full history sum to the balance computed from unspent outputs |
| Wallet.CreateOutputs | services/touchstone_server.go:1234-1247 | the first address or amount error, or one output per amount and the int64 total |
| Wallet.SelectCoins | services/touchstone_server.go:1252-1267 | takes outputs in order until the int64 target is reached |
| Wallet.PickFrom | services/touchstone_server.go:1254-1257 | the selection stops at the first prefix that reaches the target, or takes everything |
| Wallet.SendBadgeToAddress | services/touchstone_server.go:1228-1292 | for some order in which the database returns the user's unmarked rows, the result is the one the builder function gives for their unspent outputs and the full addresses asked; every output carries 888 satoshis, and every output spent lies at an address whose row names that application, user and user index |
| Delivery.CoinSelectionIsComplete | services/touchstone_server.go:1248-1271 | "not enough badge" exactly when the user's balance is below outputs plus burn; otherwise the shortest sufficient prefix of the unspent outputs is spent |
| Delivery.BuilderMeetsInterpreter | services/touchstone_server.go:1228-1292 | a finished form of a built transaction parses into exactly the requested outputs and the change, at exactly the addresses asked, under the same badge, destroying exactly the burn, if and only if the total fits int64, it is positive or nothing is paid out, and the amounts (and the change, if there is any) go to P2PKH addresses of 20 bytes |
| Delivery.OutputsReadBack | services/touchstone_server.go:1235-1247 | of the outputs printed, the parser reads back exactly those to 20-byte hashes, in order, each as a P2PKH address |
| Delivery.PayableIsDelivered | services/touchstone_server.go:1228-1292 | a request with a fitting total and P2PKH addresses throughout is delivered whatever rows the user has and in whatever order they come |
| Delivery.ReadBackIsMeant | util/bitcoin_util.go:138-141 | printed payments are read back as they were meant if and only if every address is P2PKH with 20 bytes |
| Undelivered.OverflowIsNotDelivered | services/touchstone_server.go:1244 | on every ledger, for every user and however the inputs are unlocked, the amounts 2^63-1 and 2 are built and not delivered |
| Undelivered.ZeroIsNotDelivered | services/touchstone_server.go:1254-1257 | on every ledger, for every user, paying zero is built, spends nothing and is not delivered under the badge |
| Undelivered.ScriptHashIsNotDelivered | util/bitcoin_util.go:138 | on every ledger, for every user who has the amount, paying it to a P2SH address is built and not delivered |
| Undelivered.ScriptHashExample | util/bitcoin_util.go:138 | such a ledger, user and finished transaction |
| Undelivered.UnpayableChangeIsNotDelivered | services/touchstone_server.go:1279-1284 | on every ledger, for every user whose selected outputs leave change, a change address that is not P2PKH is not delivered |
| Undelivered.ChangeExample | services/touchstone_server.go:1279-1284 | a user who pays 3 of 5 to a payable address with a P2SH change address: the request alone is fine, and it is not delivered |
| Storage.SplitString | util/common.go:14-27 | the segments of a text: full ones and a last non-empty rest |
| Storage.JoinSegments | util/common.go:14-27 | joining the segments gives back the text |
| Storage.SegmentCount | util/common.go:14-27 | the number of segments is the length divided by the segment size, rounded up |
| Storage.TxInfoRepository.AddMsgTxInfo | models/transaction_info.go:188-219 | inserts the segments in order and then the commit row with height, block hash, time and state NEW, stopping after any number of writes and leaving existing rows as they are; succeeds exactly when the commit row was reached |
| Storage.TxInfoRepository.GetMsgTxInfo | models/transaction_info.go:145-186 | the text and the commit row, "not found", or no answer however many rounds are run |
| Storage.RunKeeps | models/transaction_info.go:188-219 | under any stops, retries and updates, segment rows hold their segment and a commit row implies all segments |
| Storage.ReAddKeepsCommit | models/transaction_info.go:188-219 | re-adding a transaction changes none of its rows, so neither its state nor its height |
| Storage.RoundTrip | models/transaction_info.go:145-219 | a transaction is found only if its commit row exists; then the read rebuilds exactly the original text if and only if it has at most 62 segments, and otherwise never ends |
| Storage.LongTextIsNeverRead | models/transaction_info.go:149-174 | a text of 62 full segments and one more character is stored and never read back |
| Recording.AddIsAddInfo | models/transaction_info.go:188-219 | adding a transaction to the segmented table records it in the ledger once its commit row is written, and changes no record before |
| Recording.StateIsSetState | models/transaction_info.go:88-102 | updating the commit row is updating the recorded state |
| Recording.RecordedIsRead | models/transaction_info.go:145-186 | in every run, a recorded transaction is read back as itself if and only if it fits, and otherwise the read never ends |

## Left out

- `CheckTxState` and `ClearMsgTx` (services/touchstone_server.go:776-827): deleting a transaction needs an assumption about chain reorganisations; the height update marks only the old height's partition and writes a field the reads do not use, so no claim is made across it.
- Tracking of stale partitions under concurrency: `SyncTxs` marks a partition before the transaction is closed, so tracking is proved for sequential calls only.
- `DfsSortAndDistinctMsgTxs` (util/bitcoin_util.go:186-220): nothing calls it, and it records the root's hash where the visited transaction's is meant.
- `ConnReader` and the handshakes of interceptor/p2p_interceptor.go: network input and output.
- Mongo sessions, gRPC, HTTP, JSON, mapi transport, logging, configuration and keys: plumbing and foreign libraries.
- SHA-256, signatures, address encoding and `wire` serialization: opaque.
- `PageTxPoints`, `PageAddrInventorys`, `TxPoints2TxInventory`: sorting and slicing of results that would only add easy members.
- models/node.go, the notification loops and the controllers: thin wrappers. Of `LocalSingleTxSource` only the transaction it hands over is modelled; its two errors need a request for another transaction, which its one call (line 889) does not make.
- Locks: `syncTxLock` and `cacheLock` are not modelled; `Workers` assumes no exclusion between workers at all.
- A peer that answers with a transaction it was not asked for, which makes `SyncTxs` fail with "txState not found": peers answer from their tables.
- Error texts of the script parser: a refused script is `None`, whichever of the checks refused it.
- Server.TouchstoneServer.ScanTxIns: the nil dereference on an illegal vin is replaced by the evident intent, as said above.
- Server.TouchstoneServer.ParseMsgTx: the same nil dereference is replaced by the evident intent.
- Storage.TxInfoRepository.GetMsgTxInfo: the endless read loop is observed for any number of rounds instead of run for ever; in `Server` a call that would not return is reported as `stalled`, with the state it leaves.
- Wallet.SendBadgeToAddress: the error for a stored txid that is not a hash is not modelled, because stored txids are hashes of transactions.
