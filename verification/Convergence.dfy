/** Pulling from a peer: why comparing digests page by page catches up with everything the peer has closed. */
module Convergence {
  import opened Model
  import opened Chains
  import opened Partitions

  /** A peer as its answers show it: its transactions and its partition table. */
  datatype Peer = Peer(infos: Infos, table: Table)

  ghost predicate IsBadgeParent(c: Chain, t: Txid, p: Txid) {
    t in c.txs && exists vin | vin in c.txs[t].ins :: IsBadgeVin(vin) && vin.prev.txid == p
  }

  /** Recorded transactions are those of the chain, at the heights the chain gives them. */
  ghost predicate Records(c: Chain, height: Txid -> int, infos: Infos) {
    forall t | t in infos :: t in c.txs && infos[t].msgTx == c.txs[t] && infos[t].height == height(t)
  }

  ghost predicate ParentClosed(c: Chain, infos: Infos) {
    forall t, p | ClosedTx(infos, t) && IsBadgeParent(c, t, p) :: ClosedTx(infos, p)
  }

  /** On the chain, a confirmed transaction's badge parents are confirmed no later, and not before the start height. */
  ghost predicate ParentsNoHigher(c: Chain, cfg: Config, height: Txid -> int) {
    forall t, p | IsBadgeParent(c, t, p) && height(t) >= cfg.startHeight :: cfg.startHeight <= height(p) <= height(t)
  }

  ghost predicate TableCurrent(cfg: Config, infos: Infos, table: Table, n: nat) {
    Contiguous(table, n) && forall id | 0 <= id < n :: Fresh(cfg, infos, table, id)
  }

  ghost predicate PeerOk(c: Chain, cfg: Config, height: Txid -> int, peer: Peer) {
    && Records(c, height, peer.infos) && ParentClosed(c, peer.infos) && Legible(cfg, peer.infos)
    && TableCurrent(cfg, peer.infos, peer.table, |peer.table|)
  }

  /** In every partition below `m` that the peer holds, all the peer's closed transactions are closed here. */
  ghost predicate CaughtUp(cfg: Config, infos: Infos, peer: Peer, m: int) {
    forall q | 0 <= q < m && q in peer.table :: ClosedIn(cfg, peer.infos, q) <= ClosedIn(cfg, infos, q)
  }

  /** The partitions of a page that both sides hold with different digests. */
  ghost predicate Differs(table: Table, peer: Peer, offset: int, q: int) {
    && offset <= q < offset + COMPARE_PARTITIONS_COUNT
    && q in table && q in peer.table && table[q] != peer.table[q]
  }

  ghost predicate Asked(cfg: Config, table: Table, peer: Peer, offset: int, t: Txid) {
    exists q | Differs(table, peer, offset, q) :: t in ClosedIn(cfg, peer.infos, q)
  }

  /** The ids at which two pages differ, position by position, among the first `k`. */
  function DiffIds(ours: seq<(int, Digest)>, theirs: seq<(int, Digest)>, k: nat): seq<int>
    requires k <= |ours| && k <= |theirs|
  {
    if k == 0 then []
    else DiffIds(ours, theirs, k - 1) + if ours[k - 1].1 != theirs[k - 1].1 then [ours[k - 1].0] else []
  }

  /** `page` is the page of `table` at `offset`. */
  ghost predicate IsPage(page: seq<(int, Digest)>, table: Table, offset: nat) {
    && |page| == |PageIds(table, offset)|
    && forall i | 0 <= i < |page| ::
      page[i].0 == PageIds(table, offset)[i] && page[i].0 in table && page[i].1 == table[page[i].0]
  }

  /** `page` holds the consecutive partitions of `table` from `offset` on. */
  ghost predicate Aligned(page: seq<(int, Digest)>, table: Table, offset: nat) {
    && (forall i | 0 <= i < |page| :: page[i].0 == offset + i && page[i].0 in table && page[i].1 == table[page[i].0])
    && (forall q | offset <= q < offset + COMPARE_PARTITIONS_COUNT && q in table :: q < offset + |page|)
    && |page| <= COMPARE_PARTITIONS_COUNT
  }

  lemma PageIsAligned(page: seq<(int, Digest)>, table: Table, n: nat, offset: nat)
    requires Contiguous(table, n) && IsPage(page, table, offset)
    ensures Aligned(page, table, offset)
  {
    ContiguousPage(table, n, offset);
  }

  lemma {:induction false} DiffIdsAligned(ours: seq<(int, Digest)>, theirs: seq<(int, Digest)>, table: Table,
    peer: Peer, offset: nat, k: nat)
    requires k <= |ours| && k <= |theirs| && Aligned(ours, table, offset) && Aligned(theirs, peer.table, offset)
    ensures forall q :: q in DiffIds(ours, theirs, k) <==> Differs(table, peer, offset, q) && q < offset + k
  {
    if k > 0 {
      DiffIdsAligned(ours, theirs, table, peer, offset, k - 1);
      assert ours[k - 1].0 == offset + (k - 1) == theirs[k - 1].0;
    }
  }

  /** With contiguous tables, comparing pages by position finds exactly the partitions that differ. */
  lemma ComparisonIsExact(ours: seq<(int, Digest)>, theirs: seq<(int, Digest)>, table: Table, n: nat, peer: Peer,
    offset: nat)
    requires Contiguous(table, n) && Contiguous(peer.table, |peer.table|)
    requires IsPage(ours, table, offset) && IsPage(theirs, peer.table, offset)
    ensures var k := if |ours| <= |theirs| then |ours| else |theirs|;
            forall q :: q in DiffIds(ours, theirs, k) <==> Differs(table, peer, offset, q)
  {
    hide PageIds;
    PageIsAligned(ours, table, n, offset);
    PageIsAligned(theirs, peer.table, |peer.table|, offset);
    var k := if |ours| <= |theirs| then |ours| else |theirs|;
    DiffIdsAligned(ours, theirs, table, peer, offset, k);
  }

  /** The closed transactions of some partitions together. */
  function ClosedOf(cfg: Config, infos: Infos, ids: seq<int>): set<Txid> {
    if ids == [] then {} else ClosedOf(cfg, infos, ids[..|ids| - 1]) + ClosedIn(cfg, infos, ids[|ids| - 1])
  }

  lemma {:induction false} ClosedOfMembers(cfg: Config, infos: Infos, ids: seq<int>)
    ensures forall t :: t in ClosedOf(cfg, infos, ids) <==> exists id | id in ids :: t in ClosedIn(cfg, infos, id)
  {
    hide ClosedIn;
    if ids != [] {
      var n := |ids| - 1;
      ClosedOfMembers(cfg, infos, ids[..n]);
      assert ids == ids[..n] + [ids[n]];
    }
  }

  /** What is asked of a peer comes with its badge parents, or finds them closed here already. */
  lemma AskedIsSupplied(c: Chain, cfg: Config, height: Txid -> int, infos: Infos, table: Table, n: nat, peer: Peer,
    offset: nat, t: Txid, p: Txid)
    requires InjectiveHash(cfg) && ParentsNoHigher(c, cfg, height) && PeerOk(c, cfg, height, peer)
    requires TableCurrent(cfg, infos, table, n)
    requires CaughtUp(cfg, infos, peer, if offset <= n then offset else n)
    requires Asked(cfg, table, peer, offset, t) && IsBadgeParent(c, t, p)
    ensures ClosedTx(infos, p) || Asked(cfg, table, peer, offset, p)
  {
    hide ClosedIn, DigestOf;
    var q :| Differs(table, peer, offset, q) && t in ClosedIn(cfg, peer.infos, q);
    InPartition(cfg, peer.infos, q, t);
    assert ClosedTx(peer.infos, p);
    var q' := PartitionOf(cfg, height(p));
    assert 0 <= q' <= q;
    InPartition(cfg, peer.infos, q', p);
    assert q' in peer.table && q' in table;
    if q' >= offset {
      if table[q'] == peer.table[q'] {
        assert Fresh(cfg, infos, table, q') && Fresh(cfg, peer.infos, peer.table, q');
        DigestDecides(cfg, infos, peer.infos, q');
        InPartition(cfg, infos, q', p);
      } else {
        assert Differs(table, peer, offset, q');
      }
    } else {
      InPartition(cfg, infos, q', p);
    }
  }

  /** What a pull may change: transactions asked for become closed, closed ones stay, heights stay. */
  ghost predicate Pulled(height: Txid -> int, infos: Infos, infos': Infos) {
    && (forall t | ClosedTx(infos, t) :: ClosedTx(infos', t))
    && (forall t | t in infos :: t in infos' && infos[t].height == height(t))
    && (forall t | t in infos' :: infos'[t].height == height(t))
  }

  lemma PulledKeepsCaughtUp(cfg: Config, height: Txid -> int, infos: Infos, infos': Infos, peer: Peer, m: int)
    requires Pulled(height, infos, infos') && CaughtUp(cfg, infos, peer, m)
    ensures CaughtUp(cfg, infos', peer, m)
  {
    hide ClosedIn;
    forall q | 0 <= q < m && q in peer.table ensures ClosedIn(cfg, peer.infos, q) <= ClosedIn(cfg, infos', q) {
      forall t | t in ClosedIn(cfg, peer.infos, q) ensures t in ClosedIn(cfg, infos', q) {
        InPartition(cfg, infos, q, t);
        InPartition(cfg, infos', q, t);
      }
    }
  }

  /** Once everything asked is closed, the page is caught up with. */
  lemma PageCaughtUp(c: Chain, cfg: Config, height: Txid -> int, infos: Infos, infos': Infos, table: Table, n: nat,
    peer: Peer, offset: nat)
    requires InjectiveHash(cfg) && PeerOk(c, cfg, height, peer) && TableCurrent(cfg, infos, table, n)
    requires CaughtUp(cfg, infos, peer, if offset <= n then offset else n)
    requires Pulled(height, infos, infos') && forall t | Asked(cfg, table, peer, offset, t) :: ClosedTx(infos', t)
    ensures CaughtUp(cfg, infos', peer,
              if offset + COMPARE_PARTITIONS_COUNT <= n then offset + COMPARE_PARTITIONS_COUNT else n)
  {
    hide ClosedIn, DigestOf;
    var m := if offset + COMPARE_PARTITIONS_COUNT <= n then offset + COMPARE_PARTITIONS_COUNT else n;
    forall q, t | 0 <= q < m && q in peer.table && t in ClosedIn(cfg, peer.infos, q)
      ensures t in ClosedIn(cfg, infos', q)
    {
      InPartition(cfg, peer.infos, q, t);
      InPartition(cfg, infos, q, t);
      InPartition(cfg, infos', q, t);
      if q >= offset {
        assert q in table;
        if table[q] == peer.table[q] {
          assert Fresh(cfg, infos, table, q) && Fresh(cfg, peer.infos, peer.table, q);
          DigestDecides(cfg, infos, peer.infos, q);
        } else {
          assert Differs(table, peer, offset, q);
          assert Asked(cfg, table, peer, offset, t);
        }
      }
    }
  }

  /** Nothing becomes closed that some peer had not closed. */
  ghost predicate OnlyFrom(infos: Infos, infos': Infos, peers: seq<Peer>) {
    forall t | ClosedTx(infos', t) :: ClosedTx(infos, t) || exists peer | peer in peers :: ClosedTx(peer.infos, t)
  }

  /** A finished pull from one peer: both sides' partitions merged in every partition both hold. */
  ghost predicate PulledFrom(c: Chain, cfg: Config, height: Txid -> int, infos: Infos, infos': Infos, table': Table,
    n: nat, peer: Peer)
  {
    && Records(c, height, infos') && Pulled(height, infos, infos') && OnlyFrom(infos, infos', [peer])
    && CaughtUp(cfg, infos', peer, n) && TableCurrent(cfg, infos', table', n)
  }

  lemma MergedIn(c: Chain, cfg: Config, height: Txid -> int, infos: Infos, infos': Infos, table': Table, n: nat,
    peer: Peer, q: int)
    requires PulledFrom(c, cfg, height, infos, infos', table', n, peer) && Records(c, height, peer.infos)
    requires 0 <= q < n && q in peer.table
    ensures ClosedIn(cfg, infos', q) == ClosedIn(cfg, infos, q) + ClosedIn(cfg, peer.infos, q)
  {
    hide ClosedIn;
    forall t
      ensures t in ClosedIn(cfg, infos', q) <==> t in ClosedIn(cfg, infos, q) || t in ClosedIn(cfg, peer.infos, q)
    {
      InPartition(cfg, infos, q, t);
      InPartition(cfg, infos', q, t);
      InPartition(cfg, peer.infos, q, t);
    }
  }

  /**
   * Pull convergence: after a pulls from b, and then b from a, both hold the same closed transactions
   * and the same digest in every partition both hold.
   */
  lemma PullEachWay(c: Chain, cfg: Config, height: Txid -> int, a: Peer, b: Peer, a': Peer, b': Peer, n: nat, m: nat)
    requires Records(c, height, b.infos) && Contiguous(b.table, m)
    requires PulledFrom(c, cfg, height, a.infos, a'.infos, a'.table, n, b)
    requires PulledFrom(c, cfg, height, b.infos, b'.infos, b'.table, m, a')
    ensures forall q | 0 <= q < n && q < m ::
              && ClosedIn(cfg, a'.infos, q) == ClosedIn(cfg, b'.infos, q) ==
                ClosedIn(cfg, a.infos, q) + ClosedIn(cfg, b.infos, q)
              && a'.table[q] == b'.table[q]
  {
    hide ClosedIn;
    forall q | 0 <= q < n && q < m
      ensures ClosedIn(cfg, a'.infos, q) == ClosedIn(cfg, b'.infos, q) ==
              ClosedIn(cfg, a.infos, q) + ClosedIn(cfg, b.infos, q)
      ensures a'.table[q] == b'.table[q]
    {
      MergedIn(c, cfg, height, a.infos, a'.infos, a'.table, n, b, q);
      MergedIn(c, cfg, height, b.infos, b'.infos, b'.table, m, a', q);
      assert Fresh(cfg, a'.infos, a'.table, q) && Fresh(cfg, b'.infos, b'.table, q);
    }
  }
}
