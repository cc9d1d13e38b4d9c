/** Partition digests: what they are computed from, when they are stale, and what comparing them tells. */
module Partitions {
  import opened Model
  import opened Orders
  import Storage

  const PARTITION_BLOCK_COUNT := 10
  const COMPARE_PARTITIONS_COUNT := 10
  const RE_COMPUTE_PARTITION_COUNT := 1
  const UNCONFIRM_TX_HEIGHT := -1

  type Digest = string

  /**
   * The start height of the network, SHA-256 over a list of txids, and the hexadecimal text of a serialized
   * transaction.
   */
  datatype Config = Config(startHeight: int, hash: seq<Txid> -> Digest, text: MsgTx -> string)

  /** GetMsgTxInfo returns for a recorded transaction: its text has at most 62 segments. */
  predicate Fits(cfg: Config, tx: MsgTx) {
    |cfg.text(tx)| <= Storage.READABLE_LENGTH
  }

  /** Every closed transaction can be read back. */
  ghost predicate Legible(cfg: Config, infos: Infos) {
    forall t | ClosedTx(infos, t) :: Fits(cfg, infos[t].msgTx)
  }

  type Table = map<int, Digest>

  function LowHeight(cfg: Config, id: int): int {
    cfg.startHeight + id * PARTITION_BLOCK_COUNT
  }

  /** GetTxidsByHeightRangeOrderByTxid for CLOSED rows, as a set. */
  function ClosedBetween(infos: Infos, lo: int, hi: int): set<Txid> {
    set t | t in infos && infos[t].state == Closed && lo <= infos[t].height < hi
  }

  /** The closed transactions of a partition. */
  function ClosedIn(cfg: Config, infos: Infos, id: int): set<Txid> {
    ClosedBetween(infos, LowHeight(cfg, id), LowHeight(cfg, id) + PARTITION_BLOCK_COUNT)
  }

  /** The partition of a height at or above the start height. */
  function PartitionOf(cfg: Config, height: int): int {
    (height - cfg.startHeight) / PARTITION_BLOCK_COUNT
  }

  lemma InPartition(cfg: Config, infos: Infos, id: int, t: Txid)
    requires id >= 0
    ensures t in ClosedIn(cfg, infos, id) <==>
            ClosedTx(infos, t) && infos[t].height >= cfg.startHeight && PartitionOf(cfg, infos[t].height) == id
  {
  }

  /** ComputePartitionHash: the digest of the closed txids in ascending order. */
  ghost function DigestOf(cfg: Config, infos: Infos, id: int): Digest {
    StringLessTotal();
    cfg.hash(Listed(ClosedIn(cfg, infos, id), StringLess))
  }

  /**
   * `txids` are the closed transactions of the ten blocks of partition `id`, each once: of any two, the one that is a
   * prefix of the other, or has the smaller character at their first difference, comes first.
   */
  ghost predicate ListsClosed(cfg: Config, infos: Infos, id: int, txids: seq<Txid>) {
    && (forall i, j | 0 <= i < j < |txids| :: Before(txids[i], txids[j]) && txids[i] != txids[j])
    && (forall t :: t in txids <==>
          ClosedTx(infos, t) && cfg.startHeight + 10 * id <= infos[t].height < cfg.startHeight + 10 * id + 10)
  }

  lemma ListedIsDictionary(cfg: Config, infos: Infos, id: int, txids: seq<Txid>)
    requires StrictTotal(StringLess) && txids == Listed(ClosedIn(cfg, infos, id), StringLess)
    ensures ListsClosed(cfg, infos, id, txids)
  {
    hide Listed, StringLess, Before;
    assert Ascending(txids, StringLess) && Enumerates(txids, ClosedIn(cfg, infos, id));
    forall i, j | 0 <= i < j < |txids| ensures Before(txids[i], txids[j]) && txids[i] != txids[j] {
      StringLessIsBefore(txids[i], txids[j]);
    }
    forall t ensures t in txids <==>
        ClosedTx(infos, t) && cfg.startHeight + 10 * id <= infos[t].height < cfg.startHeight + 10 * id + 10
    {
      assert t in txids <==> t in ClosedIn(cfg, infos, id);
    }
  }

  /** SHA-256 is taken to be injective on lists of txids. */
  ghost predicate InjectiveHash(cfg: Config) {
    forall a, b :: cfg.hash(a) == cfg.hash(b) ==> a == b
  }

  /** Equal digests mean equal closed sets, and conversely. */
  lemma DigestDecides(cfg: Config, infos: Infos, infos': Infos, id: int)
    requires InjectiveHash(cfg)
    ensures DigestOf(cfg, infos, id) == DigestOf(cfg, infos', id) <==>
            ClosedIn(cfg, infos, id) == ClosedIn(cfg, infos', id)
  {
    hide Listed, StrictTotal, ClosedIn;
    StringLessTotal();
    var a, b := ClosedIn(cfg, infos, id), ClosedIn(cfg, infos', id);
    if DigestOf(cfg, infos, id) == DigestOf(cfg, infos', id) {
      assert Listed(a, StringLess) == Listed(b, StringLess);
      assert forall t :: t in a <==> t in Listed(a, StringLess);
      assert a == b;
    }
  }

  // ----- dirty tracking

  ghost predicate Fresh(cfg: Config, infos: Infos, table: Table, id: int) {
    id in table && table[id] == DigestOf(cfg, infos, id)
  }

  /** If the stored digest of partition `id` is stale, the partition is marked dirty. */
  ghost predicate TrackedAt(cfg: Config, infos: Infos, table: Table, dirty: set<int>, id: int) {
    id in table && id >= 0 && !Fresh(cfg, infos, table, id) ==> id in dirty
  }

  ghost predicate Tracked(cfg: Config, infos: Infos, table: Table, dirty: set<int>) {
    forall id :: TrackedAt(cfg, infos, table, dirty, id)
  }

  /** Every partition that was tracked still is, whatever the others are like. */
  ghost predicate KeepsTracking(cfg: Config, infos: Infos, table: Table, dirty: set<int>, infos': Infos, table': Table,
    dirty': set<int>)
  {
    forall id | TrackedAt(cfg, infos, table, dirty, id) :: TrackedAt(cfg, infos', table', dirty', id)
  }

  /** The marks AddNeedRecomputehashPartitionByHeight makes. */
  function MarkOf(cfg: Config, height: int): set<int> {
    if height < cfg.startHeight then {} else {PartitionOf(cfg, height)}
  }

  /** No recorded height changes, and a transaction that becomes closed has its partition marked. */
  ghost predicate MarksChanges(cfg: Config, infos: Infos, infos': Infos, dirty: set<int>) {
    && (forall t | t in infos :: t in infos' && infos'[t].height == infos[t].height)
    && (forall t | ClosedTx(infos, t) :: ClosedTx(infos', t))
    && (forall t | ClosedTx(infos', t) && !ClosedTx(infos, t) :: MarkOf(cfg, infos'[t].height) <= dirty)
  }

  /** If changes are marked, an unmarked partition has the closed set it had. */
  lemma UnmarkedUnchanged(cfg: Config, infos: Infos, infos': Infos, dirty: set<int>, id: int)
    requires MarksChanges(cfg, infos, infos', dirty) && id >= 0 && id !in dirty
    ensures ClosedIn(cfg, infos, id) == ClosedIn(cfg, infos', id)
  {
    forall t ensures t in ClosedIn(cfg, infos, id) <==> t in ClosedIn(cfg, infos', id) {
      InPartition(cfg, infos, id, t);
      InPartition(cfg, infos', id, t);
    }
  }

  /** Marking every change keeps partitions tracked. */
  lemma MarkingTracks(cfg: Config, infos: Infos, infos': Infos, table: Table, dirty: set<int>, dirty': set<int>)
    requires dirty <= dirty' && MarksChanges(cfg, infos, infos', dirty')
    ensures KeepsTracking(cfg, infos, table, dirty, infos', table, dirty')
  {
    hide MarksChanges, ClosedIn;
    forall id | TrackedAt(cfg, infos, table, dirty, id) ensures TrackedAt(cfg, infos', table, dirty', id) {
      if id >= 0 && id !in dirty' {
        UnmarkedUnchanged(cfg, infos, infos', dirty', id);
      }
    }
  }

  /** ClearCacheAndSetHash: the marked partitions recomputed, the others as they were. */
  ghost predicate Recomputed(cfg: Config, infos: Infos, table: Table, dirty: set<int>, table': Table) {
    && table'.Keys == table.Keys + (dirty - {-1})
    && (forall id | id in dirty && id != -1 :: Fresh(cfg, infos, table', id))
    && (forall id | id in table && id !in dirty :: table'[id] == table[id])
  }

  lemma RecomputeNothing(cfg: Config, infos: Infos, table: Table)
    ensures Recomputed(cfg, infos, table, {}, table)
  {
    hide Fresh;
    assert table.Keys + ({} - {-1}) == table.Keys;
  }

  /** Recomputing one more marked partition; -1 is skipped. */
  lemma RecomputeNext(cfg: Config, infos: Infos, table: Table, done: set<int>, table': Table, id: int)
    requires Recomputed(cfg, infos, table, done, table')
    ensures Recomputed(cfg, infos, table, done + {id},
              if id == -1 then table' else table'[id := DigestOf(cfg, infos, id)])
  {
    hide DigestOf;
    if id == -1 {
      assert done + {id} - {-1} == done - {-1};
    } else {
      assert table'[id := DigestOf(cfg, infos, id)].Keys == table.Keys + (done + {id} - {-1});
    }
  }

  /** So does recomputing the marked ones and taking the marks. */
  lemma RecomputedTracks(cfg: Config, infos: Infos, table: Table, dirty: set<int>, table': Table)
    requires Recomputed(cfg, infos, table, dirty, table')
    ensures KeepsTracking(cfg, infos, table, dirty, infos, table', {})
  {
    hide DigestOf;
    forall id | TrackedAt(cfg, infos, table, dirty, id) ensures TrackedAt(cfg, infos, table', {}, id) {
      if id in table' && id >= 0 && id !in dirty {
        assert id in table;
      }
    }
  }

  lemma RecomputedIsFresh(cfg: Config, infos: Infos, table: Table, dirty: set<int>, table': Table)
    requires Tracked(cfg, infos, table, dirty) && Recomputed(cfg, infos, table, dirty, table')
    ensures forall id | id in table' && id >= 0 :: Fresh(cfg, infos, table', id)
  {
    hide DigestOf;
    RecomputedTracks(cfg, infos, table, dirty, table');
    forall id | id in table' && id >= 0 ensures Fresh(cfg, infos, table', id) {
      assert TrackedAt(cfg, infos, table, dirty, id) && TrackedAt(cfg, infos, table', {}, id);
    }
  }

  // ----- pages of the partition table

  /** The ids of a page: the table's ids in order, from `offset`, at most COMPARE_PARTITIONS_COUNT. */
  ghost function PageIds(table: Table, offset: nat): seq<int> {
    IntLessTotal();
    var ids := Listed(table.Keys, IntLess);
    if |ids| <= offset then []
    else if |ids| <= offset + COMPARE_PARTITIONS_COUNT then ids[offset..]
    else ids[offset..offset + COMPARE_PARTITIONS_COUNT]
  }

  /** The table's ids are exactly 0..n-1. */
  ghost predicate Contiguous(table: Table, n: nat) {
    forall id :: id in table <==> 0 <= id < n
  }

  lemma ContiguousList(table: Table, n: nat)
    requires Contiguous(table, n)
    ensures StrictTotal(IntLess) && Listed(table.Keys, IntLess) == seq(n, i => i)
  {
    hide Listed, StrictTotal;
    IntLessTotal();
    var list := seq(n, i => i);
    forall id ensures id in list <==> id in table.Keys {
      if 0 <= id < n {
        assert list[id] == id;
      }
    }
    AscendingUnique(list, Listed(table.Keys, IntLess), IntLess);
  }

  /** So position i of a page is partition offset + i. */
  lemma ContiguousPage(table: Table, n: nat, offset: nat)
    requires Contiguous(table, n)
    ensures |PageIds(table, offset)| ==
            if n <= offset then 0 else if n <= offset + COMPARE_PARTITIONS_COUNT then n - offset
              else COMPARE_PARTITIONS_COUNT
    ensures forall i | 0 <= i < |PageIds(table, offset)| :: PageIds(table, offset)[i] == offset + i
  {
    hide Listed, StrictTotal;
    ContiguousList(table, n);
  }

  /** Go's integer division, which truncates toward zero. */
  function GoDiv(a: int, b: int): int
    requires b > 0
  {
    if a >= 0 then a / b else -((-a) / b)
  }

  /** How many partitions the chain's current height calls for. */
  function ExpectedPartitions(cfg: Config, currentHeight: int): int {
    GoDiv(currentHeight - cfg.startHeight, PARTITION_BLOCK_COUNT) + 1
  }

  /**
   * The count is exact: every height from the start height to the current one has its partition below it, and the
   * last partition is the current height's. More than nine blocks before the start height nothing is expected.
   */
  lemma ExpectedIsExact(cfg: Config, currentHeight: int)
    ensures forall h | cfg.startHeight <= h <= currentHeight ::
              0 <= PartitionOf(cfg, h) < ExpectedPartitions(cfg, currentHeight)
    ensures currentHeight >= cfg.startHeight ==>
            ExpectedPartitions(cfg, currentHeight) == PartitionOf(cfg, currentHeight) + 1
    ensures ExpectedPartitions(cfg, currentHeight) <= 0 <==> currentHeight <= cfg.startHeight - 10
  {
  }

  /** A partition is ten blocks. */
  lemma PartitionIsTenBlocks(cfg: Config, h: int)
    requires h >= cfg.startHeight
    ensures cfg.startHeight + 10 * PartitionOf(cfg, h) <= h < cfg.startHeight + 10 * PartitionOf(cfg, h) + 10
  {
  }
}
