/** What SyncTxs needs from its search and fetch loops, and what it leaves behind. */
module Syncing {
  import opened Model
  import opened Chains
  import opened Store
  import opened Workers
  import opened Sorting
  import opened Closing
  import opened Batches
  import opened Partitions
  import opened Convergence
  import opened Orders

  // ----- what processing a list changes

  lemma {:induction false} ProcessAllFrame(l: Ledger, txs: seq<MsgTx>, ts: int)
    ensures var infos' := ProcessAll(l, txs, ts).infos;
            && infos'.Keys == l.infos.Keys
            && (forall t | t in l.infos :: infos'[t].height == l.infos[t].height && infos'[t].msgTx == l.infos[t].msgTx)
            && (forall t | t in l.infos && !Mentions(txs, t) :: infos'[t] == l.infos[t])
    decreases |txs|
  {
    hide Parse, AddPoints;
    if txs != [] {
      ProcessAllFrame(Process(l, txs[0], ts), txs[1..], ts);
      assert forall j | 0 <= j < |txs[1..]| :: txs[1..][j] == txs[j + 1];
    }
  }

  lemma {:induction false} ProcessAllKeeps(c: Chain, l: Ledger, txs: seq<MsgTx>, ts: int)
    requires LedgerOk(c, l) && forall tx | tx in txs :: ChainTx(c, tx)
    ensures LedgerOk(c, ProcessAll(l, txs, ts))
    decreases |txs|
  {
    hide Process, LedgerOk;
    if txs != [] {
      assert txs[0] in txs;
      ProcessKeeps(c, l, txs[0], ts);
      ProcessAllKeeps(c, Process(l, txs[0], ts), txs[1..], ts);
    }
  }

  /** Transactions of one chain form an acyclic batch. */
  lemma ChainBatchIsAcyclic(c: Chain, txs: seq<MsgTx>)
    requires forall tx | tx in txs :: ChainTx(c, tx)
    ensures Acyclic(txs)
  {
    forall tx, vin | tx in txs && vin in tx.ins && Mentions(txs, vin.prev.txid)
      ensures vin.prev.txid in c.rank && c.rank[vin.prev.txid] < c.rank[tx.txid]
    {
      var j :| 0 <= j < |txs| && txs[j].txid == vin.prev.txid;
      assert txs[j] in txs;
      var i :| 0 <= i < |tx.ins| && tx.ins[i] == vin;
      assert c.txs[tx.txid].ins[i].prev.txid in c.txs;
    }
    assert Ranked(txs, c.rank);
  }

  // ----- SyncTxs

  /** The base chain's answer about a transaction. */
  datatype TxStatus = Failure | Success(blockHash: string, blockHeight: int)

  /** The height recorded for a newly fetched transaction. */
  function RecordedHeight(status: TxStatus): int
    requires status.Success?
  {
    if status.blockHash != "" then status.blockHeight else UNCONFIRM_TX_HEIGHT
  }

  /** A requested transaction that is recorded here and not closed. */
  ghost predicate StillOpen(infos: Infos, txids: seq<Txid>, tx: MsgTx) {
    tx.txid in txids && tx.txid in infos && infos[tx.txid].state != Closed && infos[tx.txid].msgTx == tx
  }

  ghost predicate Keyed(infos: Infos) {
    forall t | t in infos :: infos[t].msgTx.txid == t
  }

  /** The partitions the recorded or reported heights of `txids` fall in. */
  ghost predicate MarkedFor(cfg: Config, infos: Infos, mapi: Txid -> TxStatus, txids: seq<Txid>, d: int) {
    exists t | t in txids ::
      if t in infos then d in MarkOf(cfg, infos[t].height)
      else mapi(t).Success? && d in MarkOf(cfg, mapi(t).blockHeight)
  }

  /** The search loop sorted the request: closed here, to process again, to fetch, or refused by the base chain. */
  ghost predicate Collected(cfg: Config, infos: Infos, txids: seq<Txid>, mapi: Txid -> TxStatus, lackTxids: seq<Txid>,
    needProcessTx: seq<MsgTx>, dirty: set<int>)
  {
    && (forall t | t in lackTxids :: t in txids && t !in infos && mapi(t).Success?)
    && (forall tx | tx in needProcessTx :: StillOpen(infos, txids, tx) && MarkOf(cfg, infos[tx.txid].height) <= dirty)
    && (forall t | t in txids ::
          ClosedTx(infos, t) || t in lackTxids || Mentions(needProcessTx, t) || (t !in infos && mapi(t).Failure?))
  }

  /** The fetch loop recorded, as NEW, what the source had. */
  ghost predicate Fetched(cfg: Config, infos: Infos, infos': Infos, lackTxids: seq<Txid>, source: map<Txid, MsgTx>,
    mapi: Txid -> TxStatus, msgTxs: seq<MsgTx>, dirty: set<int>)
  {
    && (forall t | t in lackTxids :: mapi(t).Success?)
    && (forall t | t in infos :: t in infos' && infos'[t] == infos[t])
    && (forall t | t in infos' && t !in infos ::
          t in lackTxids && t in source && infos'[t] == TxInfo(source[t], RecordedHeight(mapi(t)), New))
    && (forall tx | tx in msgTxs ::
      tx.txid in lackTxids && tx.txid in source && source[tx.txid] == tx && tx.txid in infos')
    && (forall t | t in lackTxids && t in source :: Mentions(msgTxs, t) && MarkOf(cfg, mapi(t).blockHeight) <= dirty)
  }

  /** The fetch loop after its first `n` transactions. */
  ghost predicate FetchedUpTo(cfg: Config, infos: Infos, infos': Infos, lackTxids: seq<Txid>, n: nat,
    source: map<Txid, MsgTx>, mapi: Txid -> TxStatus, msgTxs: seq<MsgTx>, dirty: set<int>)
    requires n <= |lackTxids|
  {
    && (forall t | t in lackTxids :: mapi(t).Success?)
    && (forall t | t in infos :: t in infos' && infos'[t] == infos[t])
    && (forall t | t in infos' && t !in infos ::
          t in lackTxids && t in source && infos'[t] == TxInfo(source[t], RecordedHeight(mapi(t)), New))
    && (forall tx | tx in msgTxs ::
      tx.txid in lackTxids && tx.txid in source && source[tx.txid] == tx && tx.txid in infos')
    && (forall t | t in lackTxids[..n] && t in source ::
      Mentions(msgTxs, t) && MarkOf(cfg, mapi(t).blockHeight) <= dirty)
  }

  lemma FetchBegins(cfg: Config, infos: Infos, lackTxids: seq<Txid>, source: map<Txid, MsgTx>, mapi: Txid -> TxStatus,
    dirty: set<int>)
    requires forall t | t in lackTxids :: mapi(t).Success?
    ensures FetchedUpTo(cfg, infos, infos, lackTxids, 0, source, mapi, [], dirty)
    ensures MarksOnly(cfg, infos, mapi, lackTxids, dirty, dirty)
  {
    hide MarkOf, MarkedFor;
  }

  /** Recording the next transaction, or skipping it when the source lacks it. */
  lemma FetchNext(cfg: Config, infos: Infos, infos': Infos, lackTxids: seq<Txid>, n: nat, source: map<Txid, MsgTx>,
    mapi: Txid -> TxStatus, msgTxs: seq<MsgTx>, dirty0: set<int>, dirty: set<int>)
    requires n < |lackTxids| && FetchedUpTo(cfg, infos, infos', lackTxids, n, source, mapi, msgTxs, dirty)
    requires forall t | t in lackTxids :: t !in infos
    requires forall t | t in source :: source[t].txid == t
    requires MarksOnly(cfg, infos, mapi, lackTxids, dirty0, dirty)
    ensures mapi(lackTxids[n]).Success?
    ensures lackTxids[n] !in source ==> FetchedUpTo(cfg, infos, infos', lackTxids, n + 1, source, mapi, msgTxs, dirty)
    ensures lackTxids[n] in source ==>
              var t := lackTxids[n];
              var dirty' := dirty + MarkOf(cfg, mapi(t).blockHeight);
              && FetchedUpTo(cfg, infos, AddInfo(infos', source[t], RecordedHeight(mapi(t))), lackTxids, n + 1, source,
                mapi, msgTxs + [source[t]], dirty')
              && MarksOnly(cfg, infos, mapi, lackTxids, dirty0, dirty')
  {
    hide MarkOf, Mentions, MarksOnly, AddInfo;
    var t := lackTxids[n];
    assert t in lackTxids && lackTxids[..n + 1] == lackTxids[..n] + [t];
    if t in source {
      FetchFound(cfg, infos, infos', lackTxids, n, source, mapi, msgTxs, dirty);
      FetchMarks(cfg, infos, lackTxids, mapi, dirty0, dirty, t);
    }
  }

  lemma FetchFound(cfg: Config, infos: Infos, infos': Infos, lackTxids: seq<Txid>, n: nat, source: map<Txid, MsgTx>,
    mapi: Txid -> TxStatus, msgTxs: seq<MsgTx>, dirty: set<int>)
    requires n < |lackTxids| && FetchedUpTo(cfg, infos, infos', lackTxids, n, source, mapi, msgTxs, dirty)
    requires lackTxids[n] in lackTxids && lackTxids[n] in source && lackTxids[n] !in infos
             && source[lackTxids[n]].txid == lackTxids[n]
    ensures var t := lackTxids[n];
            FetchedUpTo(cfg, infos, AddInfo(infos', source[t], RecordedHeight(mapi(t))), lackTxids, n + 1, source, mapi,
              msgTxs + [source[t]], dirty + MarkOf(cfg, mapi(t).blockHeight))
  {
    hide MarkOf, Mentions;
    var t, msgTxs' := lackTxids[n], msgTxs + [source[lackTxids[n]]];
    var infos'' := AddInfo(infos', source[t], RecordedHeight(mapi(t)));
    assert lackTxids[..n + 1] == lackTxids[..n] + [t];
    PlacedMarks(msgTxs, source[t]);
    assert forall u | u in infos' :: u in infos'' && infos''[u] == infos'[u];
    assert forall u | u in infos'' && u !in infos' ::
      u == t && infos''[u] == TxInfo(source[t], RecordedHeight(mapi(t)), New);
    hide AddInfo;
  }

  lemma FetchMarks(cfg: Config, infos: Infos, lackTxids: seq<Txid>, mapi: Txid -> TxStatus, dirty0: set<int>,
    dirty: set<int>, t: Txid)
    requires MarksOnly(cfg, infos, mapi, lackTxids, dirty0, dirty) && t in lackTxids && t !in infos && mapi(t).Success?
    ensures MarksOnly(cfg, infos, mapi, lackTxids, dirty0, dirty + MarkOf(cfg, mapi(t).blockHeight))
  {
    hide MarkOf;
    forall d | d in MarkOf(cfg, mapi(t).blockHeight) ensures MarkedFor(cfg, infos, mapi, lackTxids, d) {
    }
  }

  lemma FetchEnds(cfg: Config, infos: Infos, infos': Infos, lackTxids: seq<Txid>, source: map<Txid, MsgTx>,
    mapi: Txid -> TxStatus, msgTxs: seq<MsgTx>, dirty: set<int>)
    requires FetchedUpTo(cfg, infos, infos', lackTxids, |lackTxids|, source, mapi, msgTxs, dirty)
    ensures Fetched(cfg, infos, infos', lackTxids, source, mapi, msgTxs, dirty)
  {
    hide MarkOf, Mentions;
    assert lackTxids[..|lackTxids|] == lackTxids;
  }

  ghost predicate MarksOnly(cfg: Config, infos: Infos, mapi: Txid -> TxStatus, txids: seq<Txid>, dirty: set<int>,
    dirty': set<int>)
  {
    dirty <= dirty' && forall d | d in dirty' :: d in dirty || MarkedFor(cfg, infos, mapi, txids, d)
  }

  /**
   * Where SyncTxs gets missing transactions from: a peer, which reads its own table to answer, or the caller, who
   * hands one over.
   */
  datatype TxSource = FromPeer(txs: map<Txid, MsgTx>) | FromCaller(txs: map<Txid, MsgTx>)

  /** Reading this transaction, here or on the asked node, never ends. */
  predicate Unreadable(cfg: Config, infos: Infos, source: TxSource, mapi: Txid -> TxStatus, t: Txid) {
    if t in infos then infos[t].state != Closed && !Fits(cfg, infos[t].msgTx)
    else mapi(t).Success? && source.FromPeer? && t in source.txs && !Fits(cfg, source.txs[t])
  }

  /** Every requested transaction is recorded or to be had, and its badge parents are closed or requested. */
  ghost predicate Obtainable(c: Chain, infos: Infos, txids: seq<Txid>, source: map<Txid, MsgTx>, mapi: Txid -> TxStatus)
  {
    forall t | t in txids ::
      && (t in infos || (t in source && mapi(t).Success?))
      && (forall p | IsBadgeParent(c, t, p) :: ClosedTx(infos, p) || p in txids)
  }

  /** SyncTxs had all it needs to close every requested transaction. */
  ghost predicate Fetchable(c: Chain, cfg: Config, infos: Infos, txids: seq<Txid>, source: TxSource,
    mapi: Txid -> TxStatus)
  {
    && Obtainable(c, infos, txids, source.txs, mapi)
    && (forall t | t in txids :: !Unreadable(cfg, infos, source, mapi, t))
  }

  ghost predicate FromChain(c: Chain, source: map<Txid, MsgTx>) {
    forall t | t in source :: t in c.txs && source[t] == c.txs[t]
  }

  lemma FetchKeepsLedger(c: Chain, cfg: Config, l: Ledger, infos': Infos, lackTxids: seq<Txid>,
    source: map<Txid, MsgTx>, mapi: Txid -> TxStatus, msgTxs: seq<MsgTx>, dirty: set<int>)
    requires LedgerOk(c, l) && FromChain(c, source)
             && Fetched(cfg, l.infos, infos', lackTxids, source, mapi, msgTxs, dirty)
    ensures LedgerOk(c, l.(infos := infos'))
  {
    hide StoreOk, MarksOk, Points;
    forall id | id in infos'
      ensures id in c.txs && infos'[id].msgTx == c.txs[id]
      ensures infos'[id].state == Closed ==> HasAll(l.points, Points(c, id))
    {
      if id in l.infos {
        assert infos'[id] == l.infos[id];
      }
    }
  }

  /** The batch handed to ProcessMsgTxs holds only requested, not yet closed transactions of the chain. */
  lemma BatchIsRequested(c: Chain, cfg: Config, l: Ledger, infos': Infos, txids: seq<Txid>, lackTxids: seq<Txid>,
    open: seq<MsgTx>, source: map<Txid, MsgTx>, mapi: Txid -> TxStatus, msgTxs: seq<MsgTx>, dirty: set<int>,
    dirty': set<int>, tx: MsgTx)
    requires LedgerOk(c, l) && FromChain(c, source) && cfg.startHeight >= 0 && dirty <= dirty'
    requires Collected(cfg, l.infos, txids, mapi, lackTxids, open, dirty)
    requires Fetched(cfg, l.infos, infos', lackTxids, source, mapi, msgTxs, dirty')
    requires tx in open + msgTxs
    ensures ChainTx(c, tx) && tx.txid in txids && tx.txid in infos' && !ClosedTx(l.infos, tx.txid)
    ensures MarkOf(cfg, infos'[tx.txid].height) <= dirty'
  {
    hide StoreOk, MarksOk, Points;
    if tx in msgTxs {
      assert tx.txid !in l.infos;
    } else {
      assert StillOpen(l.infos, txids, tx);
    }
  }

  /** With every transaction at hand, each requested one is closed already or in the batch. */
  lemma BatchCovers(c: Chain, cfg: Config, infos: Infos, infos': Infos, txids: seq<Txid>, lackTxids: seq<Txid>,
    open: seq<MsgTx>, source: map<Txid, MsgTx>, mapi: Txid -> TxStatus, msgTxs: seq<MsgTx>, dirty: set<int>,
    dirty': set<int>)
    requires Collected(cfg, infos, txids, mapi, lackTxids, open, dirty)
    requires Fetched(cfg, infos, infos', lackTxids, source, mapi, msgTxs, dirty')
    requires Obtainable(c, infos, txids, source, mapi)
    ensures forall t | t in txids :: ClosedTx(infos', t) || Mentions(open + msgTxs, t)
  {
    hide MarkOf, StillOpen;
    var batch := open + msgTxs;
    forall t | t in txids ensures ClosedTx(infos', t) || Mentions(batch, t) {
      if Mentions(open, t) {
        var j :| 0 <= j < |open| && open[j].txid == t;
        assert batch[j].txid == t;
      } else if t in lackTxids {
        var j :| 0 <= j < |msgTxs| && msgTxs[j].txid == t;
        assert batch[|open| + j].txid == t;
      }
    }
  }

  /** If moreover every badge parent is closed or requested, the batch is supplied. */
  lemma BatchIsSupplied(c: Chain, cfg: Config, l: Ledger, infos': Infos, txids: seq<Txid>, lackTxids: seq<Txid>,
    open: seq<MsgTx>, source: map<Txid, MsgTx>, mapi: Txid -> TxStatus, msgTxs: seq<MsgTx>, dirty: set<int>,
    dirty': set<int>)
    requires LedgerOk(c, l) && FromChain(c, source) && cfg.startHeight >= 0 && dirty <= dirty'
    requires Collected(cfg, l.infos, txids, mapi, lackTxids, open, dirty)
    requires Fetched(cfg, l.infos, infos', lackTxids, source, mapi, msgTxs, dirty')
    requires Obtainable(c, l.infos, txids, source, mapi)
    ensures Supplied(l.(infos := infos'), open + msgTxs)
    ensures forall t | t in txids :: ClosedTx(infos', t) || Mentions(open + msgTxs, t)
  {
    hide LedgerOk, MarkOf, Collected, Mentions;
    var batch := open + msgTxs;
    BatchCovers(c, cfg, l.infos, infos', txids, lackTxids, open, source, mapi, msgTxs, dirty, dirty');
    forall tx | tx in batch
      ensures tx.txid in infos'
      ensures forall vin | vin in tx.ins && IsBadgeVin(vin) ::
                IsClosed(l.(infos := infos'), vin.prev.txid) || Mentions(batch, vin.prev.txid)
    {
      BatchIsRequested(c, cfg, l, infos', txids, lackTxids, open, source, mapi, msgTxs, dirty, dirty', tx);
      hide Fetched;
      forall vin | vin in tx.ins && IsBadgeVin(vin)
        ensures IsClosed(l.(infos := infos'), vin.prev.txid) || Mentions(batch, vin.prev.txid)
      {
        assert IsBadgeParent(c, tx.txid, vin.prev.txid);
        StaysClosed(cfg, l.infos, infos', lackTxids, source, mapi, msgTxs, dirty', vin.prev.txid);
      }
    }
  }

  lemma StaysClosed(cfg: Config, infos: Infos, infos': Infos, lackTxids: seq<Txid>, source: map<Txid, MsgTx>,
    mapi: Txid -> TxStatus, msgTxs: seq<MsgTx>, dirty: set<int>, t: Txid)
    requires Fetched(cfg, infos, infos', lackTxids, source, mapi, msgTxs, dirty)
    ensures ClosedTx(infos, t) ==> ClosedTx(infos', t)
  {
  }

  /** What SyncTxs leaves behind: only requested transactions change, heights stay, changes are marked. */
  ghost predicate Synced(c: Chain, cfg: Config, infos: Infos, infos': Infos, txids: seq<Txid>, mapi: Txid -> TxStatus,
    dirty': set<int>)
  {
    && MarksChanges(cfg, infos, infos', dirty')
    && (forall t | ClosedTx(infos', t) :: ClosedTx(infos, t) || t in txids)
    && (forall t | t in infos' && t !in infos ::
          t in txids && t in c.txs && infos'[t].msgTx == c.txs[t] && mapi(t).Success?
            && infos'[t].height == RecordedHeight(mapi(t)))
    && (forall t | t in infos :: t in infos' && infos'[t].msgTx == infos[t].msgTx)
  }

  /** The rows that processing may touch were requested, are not closed yet and have their partition marked. */
  ghost predicate Touchable(cfg: Config, infos: Infos, infos': Infos, txids: seq<Txid>, dirty: set<int>, t: Txid) {
    t in txids && !ClosedTx(infos, t) && t in infos' && MarkOf(cfg, infos'[t].height) <= dirty
  }

  lemma BatchIsTouchable(c: Chain, cfg: Config, l: Ledger, infos': Infos, txids: seq<Txid>, lackTxids: seq<Txid>,
    open: seq<MsgTx>, source: map<Txid, MsgTx>, mapi: Txid -> TxStatus, msgTxs: seq<MsgTx>, dirty: set<int>,
    dirty': set<int>, sorted: seq<MsgTx>)
    requires LedgerOk(c, l) && FromChain(c, source) && cfg.startHeight >= 0 && dirty <= dirty'
    requires Collected(cfg, l.infos, txids, mapi, lackTxids, open, dirty)
    requires Fetched(cfg, l.infos, infos', lackTxids, source, mapi, msgTxs, dirty')
    requires SameBatch(open + msgTxs, sorted)
    ensures forall t | Mentions(sorted, t) :: Touchable(cfg, l.infos, infos', txids, dirty', t)
  {
    hide LedgerOk, MarkOf, Collected, Fetched, FromChain;
    SameBatchMembers(open + msgTxs, sorted);
    forall t | Mentions(sorted, t) ensures Touchable(cfg, l.infos, infos', txids, dirty', t) {
      var j :| 0 <= j < |sorted| && sorted[j].txid == t;
      assert sorted[j] in open + msgTxs;
      BatchIsRequested(c, cfg, l, infos', txids, lackTxids, open, source, mapi, msgTxs, dirty, dirty', sorted[j]);
    }
  }

  lemma TouchedIsMarked(cfg: Config, infos: Infos, infos': Infos, after: Infos, txids: seq<Txid>, lackTxids: seq<Txid>,
    source: map<Txid, MsgTx>, mapi: Txid -> TxStatus, msgTxs: seq<MsgTx>, dirty': set<int>)
    requires Fetched(cfg, infos, infos', lackTxids, source, mapi, msgTxs, dirty') && after.Keys == infos'.Keys
    requires forall t | t in infos' :: after[t].height == infos'[t].height && after[t].msgTx == infos'[t].msgTx
    requires forall t | t in infos' :: after[t] == infos'[t] || Touchable(cfg, infos, infos', txids, dirty', t)
    ensures MarksChanges(cfg, infos, after, dirty')
  {
    hide MarkOf, Mentions;
    assert forall t :: t in after <==> t in infos';
  }

  /** Rows fetched as NEW, then only touchable rows processed. */
  lemma TouchedIsSynced(c: Chain, cfg: Config, infos: Infos, infos': Infos, after: Infos, txids: seq<Txid>,
    lackTxids: seq<Txid>, open: seq<MsgTx>, source: map<Txid, MsgTx>, mapi: Txid -> TxStatus, msgTxs: seq<MsgTx>,
    dirty: set<int>, dirty': set<int>)
    requires FromChain(c, source) && Collected(cfg, infos, txids, mapi, lackTxids, open, dirty)
    requires Fetched(cfg, infos, infos', lackTxids, source, mapi, msgTxs, dirty')
    requires after.Keys == infos'.Keys
    requires forall t | t in infos' :: after[t].height == infos'[t].height && after[t].msgTx == infos'[t].msgTx
    requires forall t | t in infos' :: after[t] == infos'[t] || Touchable(cfg, infos, infos', txids, dirty', t)
    ensures Synced(c, cfg, infos, after, txids, mapi, dirty')
  {
    hide MarkOf, StillOpen, MarksChanges, Mentions;
    TouchedIsMarked(cfg, infos, infos', after, txids, lackTxids, source, mapi, msgTxs, dirty');
    assert forall t | t in lackTxids :: t in txids && mapi(t).Success?;
    hide Collected;
    assert forall t :: t in after <==> t in infos';
    forall t | ClosedTx(after, t) ensures ClosedTx(infos, t) || t in txids {
      FetchedIsNew(cfg, infos, infos', lackTxids, source, mapi, msgTxs, dirty', t);
    }
    forall t | t in infos ensures t in after && after[t].msgTx == infos[t].msgTx {
      assert infos'[t] == infos[t];
    }
    hide Touchable;
  }

  lemma SyncEffect(c: Chain, cfg: Config, l: Ledger, infos': Infos, txids: seq<Txid>, lackTxids: seq<Txid>,
    open: seq<MsgTx>, source: map<Txid, MsgTx>, mapi: Txid -> TxStatus, msgTxs: seq<MsgTx>, dirty: set<int>,
    dirty': set<int>, sorted: seq<MsgTx>, ts: int)
    requires LedgerOk(c, l) && FromChain(c, source) && cfg.startHeight >= 0 && dirty <= dirty'
    requires Collected(cfg, l.infos, txids, mapi, lackTxids, open, dirty)
    requires Fetched(cfg, l.infos, infos', lackTxids, source, mapi, msgTxs, dirty')
    requires SameBatch(open + msgTxs, sorted)
    ensures Synced(c, cfg, l.infos, ProcessAll(l.(infos := infos'), sorted, ts).infos, txids, mapi, dirty')
  {
    hide LedgerOk, ProcessAll, Collected, Fetched, FromChain, Synced, Touchable, Mentions;
    ProcessAllFrame(l.(infos := infos'), sorted, ts);
    BatchIsTouchable(c, cfg, l, infos', txids, lackTxids, open, source, mapi, msgTxs, dirty, dirty', sorted);
    TouchedIsSynced(c, cfg, l.infos, infos', ProcessAll(l.(infos := infos'), sorted, ts).infos, txids, lackTxids, open,
      source, mapi, msgTxs, dirty, dirty');
  }

  lemma KeyedLedger(c: Chain, l: Ledger)
    requires LedgerOk(c, l)
    ensures Keyed(l.infos)
  {
  }

  lemma SyncKeeps(c: Chain, cfg: Config, l: Ledger, infos': Infos, txids: seq<Txid>, lackTxids: seq<Txid>,
    open: seq<MsgTx>, source: map<Txid, MsgTx>, mapi: Txid -> TxStatus, msgTxs: seq<MsgTx>, dirty: set<int>,
    dirty': set<int>, sorted: seq<MsgTx>, ts: int)
    requires LedgerOk(c, l) && LedgerOk(c, l.(infos := infos')) && FromChain(c, source) && cfg.startHeight >= 0
             && dirty <= dirty'
    requires Collected(cfg, l.infos, txids, mapi, lackTxids, open, dirty)
    requires Fetched(cfg, l.infos, infos', lackTxids, source, mapi, msgTxs, dirty')
    requires SameBatch(open + msgTxs, sorted)
    ensures LedgerOk(c, ProcessAll(l.(infos := infos'), sorted, ts))
    ensures Acyclic(open + msgTxs)
  {
    hide LedgerOk, ProcessAll;
    SameBatchMembers(open + msgTxs, sorted);
    forall tx | tx in open + msgTxs ensures ChainTx(c, tx) {
      BatchIsRequested(c, cfg, l, infos', txids, lackTxids, open, source, mapi, msgTxs, dirty, dirty', tx);
    }
    ProcessAllKeeps(c, l.(infos := infos'), sorted, ts);
    ChainBatchIsAcyclic(c, open + msgTxs);
  }

  lemma MarksOnlyTrans(cfg: Config, infos: Infos, mapi: Txid -> TxStatus, txids: seq<Txid>, lackTxids: seq<Txid>,
    dirty: set<int>, dirty1: set<int>, dirty2: set<int>)
    requires MarksOnly(cfg, infos, mapi, txids, dirty, dirty1) && MarksOnly(cfg, infos, mapi, lackTxids, dirty1, dirty2)
    requires forall t | t in lackTxids :: t in txids
    ensures MarksOnly(cfg, infos, mapi, txids, dirty, dirty2)
  {
  }

  lemma MarksGrow(cfg: Config, infos: Infos, mapi: Txid -> TxStatus, txids: seq<Txid>, dirty: set<int>,
    dirty': set<int>)
    requires MarksOnly(cfg, infos, mapi, txids, dirty, dirty')
    ensures dirty <= dirty'
  {
  }

  lemma SyncClosesAll(c: Chain, l: Ledger, batch: seq<MsgTx>, sorted: seq<MsgTx>, txids: seq<Txid>, ts: int)
    requires SameBatch(batch, sorted) && forall t | t in txids :: ClosedTx(l.infos, t) || Mentions(batch, t)
    requires forall tx | tx in batch :: IsClosed(ProcessAll(l, sorted, ts), tx.txid)
    ensures forall t | t in txids :: ClosedTx(ProcessAll(l, sorted, ts).infos, t)
  {
    hide ProcessAll;
    ProcessAllFrame(l, sorted, ts);
    SameBatchMembers(batch, sorted);
    forall t | t in txids ensures ClosedTx(ProcessAll(l, sorted, ts).infos, t) {
      if Mentions(batch, t) {
        var j :| 0 <= j < |batch| && batch[j].txid == t;
        assert batch[j] in batch;
      }
    }
  }

  // ----- pulling one page from one peer

  /** The base chain reports each transaction at its height, and no block for an unconfirmed one. */
  ghost predicate Reports(c: Chain, height: Txid -> int, mapi: Txid -> TxStatus) {
    forall t | t in c.txs :: mapi(t).Success? && RecordedHeight(mapi(t)) == height(t)
  }

  function TableOf(peer: Peer): map<Txid, MsgTx> {
    map t | t in peer.infos :: peer.infos[t].msgTx
  }

  function SourceOf(peer: Peer): TxSource {
    FromPeer(TableOf(peer))
  }

  function Min(x: int, y: int): int {
    if x <= y then x else y
  }

  /** What both nodes and the chain must agree on for a pull to converge. */
  ghost predicate Agreed(c: Chain, cfg: Config, height: Txid -> int, mapi: Txid -> TxStatus) {
    InjectiveHash(cfg) && ParentsNoHigher(c, cfg, height) && Reports(c, height, mapi) && cfg.startHeight >= 0
  }

  /** A page may be pulled: earlier partitions are caught up with and both tables are current. */
  ghost predicate PageReady(c: Chain, cfg: Config, height: Txid -> int, mapi: Txid -> TxStatus, infos: Infos,
    table: Table, n: nat, peer: Peer, offset: nat)
  {
    && Agreed(c, cfg, height, mapi) && Records(c, height, infos) && PeerOk(c, cfg, height, peer)
    && TableCurrent(cfg, infos, table, n) && CaughtUp(cfg, infos, peer, Min(offset, n))
  }

  ghost predicate PagePulled(c: Chain, cfg: Config, height: Txid -> int, infos: Infos, infos': Infos, n: nat,
    peer: Peer, offset: nat)
  {
    && Records(c, height, infos') && Pulled(height, infos, infos') && OnlyFrom(infos, infos', [peer])
    && CaughtUp(cfg, infos', peer, Min(offset + COMPARE_PARTITIONS_COUNT, n))
    && (ParentClosed(c, infos) ==> ParentClosed(c, infos'))
  }

  ghost predicate AsksFor(cfg: Config, table: Table, peer: Peer, offset: nat, txids: seq<Txid>) {
    forall t :: t in txids <==> Asked(cfg, table, peer, offset, t)
  }

  lemma AskedIsClosedThere(cfg: Config, table: Table, peer: Peer, offset: nat, t: Txid)
    requires Asked(cfg, table, peer, offset, t)
    ensures ClosedTx(peer.infos, t)
  {
  }

  lemma PageIsFetchable(c: Chain, cfg: Config, height: Txid -> int, mapi: Txid -> TxStatus, infos: Infos, table: Table,
    n: nat, peer: Peer, offset: nat, txids: seq<Txid>)
    requires PageReady(c, cfg, height, mapi, infos, table, n, peer, offset) && AsksFor(cfg, table, peer, offset, txids)
    ensures Fetchable(c, cfg, infos, txids, SourceOf(peer), mapi)
  {
    hide Asked, ClosedIn, TableCurrent, CaughtUp, ParentClosed, InjectiveHash, ParentsNoHigher;
    forall t | t in txids
      ensures t in TableOf(peer) && mapi(t).Success? && !Unreadable(cfg, infos, SourceOf(peer), mapi, t)
    {
      AskedIsClosedThere(cfg, table, peer, offset, t);
    }
    forall t, p | t in txids && IsBadgeParent(c, t, p) ensures ClosedTx(infos, p) || p in txids {
      AskedIsSupplied(c, cfg, height, infos, table, n, peer, offset, t, p);
    }
  }

  lemma SyncedRecords(c: Chain, cfg: Config, height: Txid -> int, mapi: Txid -> TxStatus, infos: Infos, infos': Infos,
    txids: seq<Txid>, dirty': set<int>)
    requires Reports(c, height, mapi) && Records(c, height, infos) && Synced(c, cfg, infos, infos', txids, mapi, dirty')
    ensures Records(c, height, infos') && Pulled(height, infos, infos')
  {
    hide MarkOf;
  }

  lemma SyncedParents(c: Chain, cfg: Config, height: Txid -> int, mapi: Txid -> TxStatus, infos: Infos, infos': Infos,
    table: Table, n: nat, peer: Peer, offset: nat, txids: seq<Txid>)
    requires PageReady(c, cfg, height, mapi, infos, table, n, peer, offset) && AsksFor(cfg, table, peer, offset, txids)
    requires forall t | ClosedTx(infos, t) || t in txids :: ClosedTx(infos', t)
    requires forall t | ClosedTx(infos', t) :: ClosedTx(infos, t) || t in txids
    requires ParentClosed(c, infos)
    ensures ParentClosed(c, infos')
  {
    hide Asked, ClosedIn, TableCurrent, CaughtUp, InjectiveHash, ParentsNoHigher, IsBadgeParent, PeerOk, Records;
    forall t, p | ClosedTx(infos', t) && IsBadgeParent(c, t, p) ensures ClosedTx(infos', p) {
      if !ClosedTx(infos, t) {
        AskedIsSupplied(c, cfg, height, infos, table, n, peer, offset, t, p);
      }
    }
  }

  /** After SyncTxs closed all that was asked, the page is pulled. */
  lemma SyncedPage(c: Chain, cfg: Config, height: Txid -> int, mapi: Txid -> TxStatus, infos: Infos, infos': Infos,
    table: Table, n: nat, peer: Peer, offset: nat, txids: seq<Txid>, dirty': set<int>)
    requires PageReady(c, cfg, height, mapi, infos, table, n, peer, offset) && AsksFor(cfg, table, peer, offset, txids)
    requires Synced(c, cfg, infos, infos', txids, mapi, dirty') && forall t | t in txids :: ClosedTx(infos', t)
    ensures PagePulled(c, cfg, height, infos, infos', n, peer, offset)
  {
    hide Asked, ClosedIn, TableCurrent, CaughtUp, InjectiveHash, ParentsNoHigher, MarkOf, Records, PeerOk, Reports,
      ParentClosed;
    SyncedRecords(c, cfg, height, mapi, infos, infos', txids, dirty');
    forall t | ClosedTx(infos', t) ensures ClosedTx(infos, t) || ClosedTx(peer.infos, t) {
      if !ClosedTx(infos, t) {
        AskedIsClosedThere(cfg, table, peer, offset, t);
      }
    }
    assert peer in [peer];
    PageCaughtUp(c, cfg, height, infos, infos', table, n, peer, offset);
    if ParentClosed(c, infos) {
      SyncedParents(c, cfg, height, mapi, infos, infos', table, n, peer, offset, txids);
    }
  }

  /** Nothing asked: the page was equal everywhere, so it is caught up with as it is. */
  lemma EqualPage(c: Chain, cfg: Config, height: Txid -> int, mapi: Txid -> TxStatus, infos: Infos, table: Table,
    n: nat, peer: Peer, offset: nat)
    requires PageReady(c, cfg, height, mapi, infos, table, n, peer, offset)
             && forall q :: !Differs(table, peer, offset, q)
    ensures PagePulled(c, cfg, height, infos, infos, n, peer, offset)
  {
    hide ClosedIn, TableCurrent, CaughtUp, InjectiveHash, ParentsNoHigher;
    PageCaughtUp(c, cfg, height, infos, infos, table, n, peer, offset);
  }

  /** The marks of a pulled page fall on partitions both sides hold. */
  lemma PageMarks(c: Chain, cfg: Config, height: Txid -> int, mapi: Txid -> TxStatus, infos: Infos, table: Table,
    n: nat, peer: Peer, offset: nat, txids: seq<Txid>, dirty': set<int>)
    requires PageReady(c, cfg, height, mapi, infos, table, n, peer, offset) && AsksFor(cfg, table, peer, offset, txids)
    requires MarksOnly(cfg, infos, mapi, txids, {}, dirty')
    ensures forall d | d in dirty' :: 0 <= d < n
  {
    hide PageReady, AsksFor, MarkOf;
    forall d | d in dirty' ensures 0 <= d < n {
      assert MarkedFor(cfg, infos, mapi, txids, d);
      var t :| t in txids && (if t in infos then d in MarkOf(cfg, infos[t].height)
                              else mapi(t).Success? && d in MarkOf(cfg, mapi(t).blockHeight));
      PageMark(c, cfg, height, mapi, infos, table, n, peer, offset, txids, t, d);
    }
  }

  lemma PageMark(c: Chain, cfg: Config, height: Txid -> int, mapi: Txid -> TxStatus, infos: Infos, table: Table, n: nat,
    peer: Peer, offset: nat, txids: seq<Txid>, t: Txid, d: int)
    requires PageReady(c, cfg, height, mapi, infos, table, n, peer, offset) && AsksFor(cfg, table, peer, offset, txids)
             && t in txids
    requires if t in infos then d in MarkOf(cfg, infos[t].height)
             else mapi(t).Success? && d in MarkOf(cfg, mapi(t).blockHeight)
    ensures 0 <= d < n
  {
    hide ClosedIn, CaughtUp, InjectiveHash, ParentsNoHigher, DigestOf, ParentClosed, Legible, Fresh;
    assert Asked(cfg, table, peer, offset, t);
    var q :| Differs(table, peer, offset, q) && t in ClosedIn(cfg, peer.infos, q);
    InPartition(cfg, peer.infos, q, t);
    assert peer.infos[t].height == height(t) >= cfg.startHeight >= 0 && PartitionOf(cfg, height(t)) == q;
    assert q in table;
  }

  lemma TableStaysCurrent(cfg: Config, infos: Infos, infos': Infos, table: Table, table': Table, n: nat,
    dirty': set<int>)
    requires TableCurrent(cfg, infos, table, n) && Tracked(cfg, infos', table, dirty')
    requires Recomputed(cfg, infos', table, dirty', table') && forall d | d in dirty' :: 0 <= d < n
    ensures TableCurrent(cfg, infos', table', n)
  {
    hide DigestOf;
    RecomputedIsFresh(cfg, infos', table, dirty', table');
    assert dirty' - {-1} <= table.Keys by {
      assert forall d | d in dirty' :: d in table;
    }
    assert table'.Keys == table.Keys;
    assert forall id :: id in table' <==> id in table'.Keys;
  }

  // ----- a pass over all pages and peers

  /** How far a pass has come: the first `j` peers are caught up with below `hi`, the others below `lo`. */
  ghost predicate Progress(c: Chain, cfg: Config, height: Txid -> int, before: Infos, infos: Infos, peers: seq<Peer>,
    j: nat, lo: int, hi: int)
  {
    && Records(c, height, infos) && Pulled(height, before, infos) && OnlyFrom(before, infos, peers)
    && (ParentClosed(c, before) ==> ParentClosed(c, infos))
    && (forall i | 0 <= i < |peers| :: CaughtUp(cfg, infos, peers[i], if i < j then hi else lo))
  }

  lemma NextPeer(c: Chain, cfg: Config, height: Txid -> int, before: Infos, infos: Infos, infos': Infos,
    peers: seq<Peer>, j: nat, n: nat, offset: nat)
    requires j < |peers|
    requires Progress(c, cfg, height, before, infos, peers, j, Min(offset, n),
             Min(offset + COMPARE_PARTITIONS_COUNT, n))
    requires PagePulled(c, cfg, height, infos, infos', n, peers[j], offset)
    ensures Progress(c, cfg, height, before, infos', peers, j + 1, Min(offset, n),
            Min(offset + COMPARE_PARTITIONS_COUNT, n))
  {
    hide ClosedIn, CaughtUp, ParentClosed;
    var lo, hi := Min(offset, n), Min(offset + COMPARE_PARTITIONS_COUNT, n);
    forall i | 0 <= i < |peers| ensures CaughtUp(cfg, infos', peers[i], if i < j + 1 then hi else lo) {
      if i != j {
        PulledKeepsCaughtUp(cfg, height, infos, infos', peers[i], if i < j then hi else lo);
      }
    }
    forall t | ClosedTx(infos', t)
      ensures ClosedTx(before, t) || exists peer | peer in peers :: ClosedTx(peer.infos, t)
    {
      if !ClosedTx(infos, t) {
        assert peers[j] in peers && ClosedTx(peers[j].infos, t);
      }
    }
  }

  lemma NextPage(c: Chain, cfg: Config, height: Txid -> int, before: Infos, infos: Infos, peers: seq<Peer>, lo: int,
    hi: int, hi': int)
    requires Progress(c, cfg, height, before, infos, peers, |peers|, lo, hi)
    ensures Progress(c, cfg, height, before, infos, peers, 0, hi, hi')
  {
    hide CaughtUp;
  }

  /** Everything a whole pass assumes. */
  ghost predicate PassReady(c: Chain, cfg: Config, height: Txid -> int, mapi: Txid -> TxStatus, infos: Infos,
    ids: set<int>, n: nat, peers: seq<Peer>)
  {
    && Agreed(c, cfg, height, mapi) && Records(c, height, infos)
    && (forall id :: id in ids <==> 0 <= id < n)
    && (forall peer | peer in peers :: PeerOk(c, cfg, height, peer))
  }

  lemma PeerReady(c: Chain, cfg: Config, height: Txid -> int, mapi: Txid -> TxStatus, before: Infos, ids: set<int>,
    infos: Infos, table: Table, n: nat, peers: seq<Peer>, j: nat, offset: nat, hi: int)
    requires PassReady(c, cfg, height, mapi, before, ids, n, peers) && j < |peers|
    requires Progress(c, cfg, height, before, infos, peers, j, Min(offset, n), hi) && TableCurrent(cfg, infos, table, n)
    ensures PageReady(c, cfg, height, mapi, infos, table, n, peers[j], offset)
  {
    hide Agreed, Records, PeerOk, TableCurrent, CaughtUp, ParentClosed, Pulled, OnlyFrom;
    assert peers[j] in peers;
  }

  lemma ClearedIsCurrent(cfg: Config, infos: Infos, table: Table, dirty: set<int>, table': Table, n: nat)
    requires Tracked(cfg, infos, table, dirty) && Recomputed(cfg, infos, table, dirty, table')
    requires forall id :: id in table.Keys + dirty <==> 0 <= id < n
    ensures TableCurrent(cfg, infos, table', n)
  {
    hide DigestOf;
    RecomputedIsFresh(cfg, infos, table, dirty, table');
    assert -1 !in table.Keys + dirty;
    assert dirty - {-1} == dirty;
    assert forall id :: id in table' <==> id in table.Keys + dirty;
  }

  /** A finished pass over one peer is a pull from it. */
  lemma PassIsPull(c: Chain, cfg: Config, height: Txid -> int, before: Infos, infos: Infos, table: Table, n: nat,
    peer: Peer, hi: int)
    requires Progress(c, cfg, height, before, infos, [peer], 0, n, hi) && TableCurrent(cfg, infos, table, n)
    ensures PulledFrom(c, cfg, height, before, infos, table, n, peer)
  {
    hide Records, TableCurrent, CaughtUp, Pulled, OnlyFrom;
    assert [peer][0] == peer;
  }

  lemma PageReadyAsks(c: Chain, cfg: Config, height: Txid -> int, mapi: Txid -> TxStatus, infos: Infos, table: Table,
    n: nat, peer: Peer, offset: nat, ids: seq<int>, txids: seq<Txid>)
    requires PageReady(c, cfg, height, mapi, infos, table, n, peer, offset)
    requires Contiguous(table, n) && Contiguous(peer.table, |peer.table|) ==>
             forall q :: q in ids <==> Differs(table, peer, offset, q)
    requires forall t :: t in txids <==> t in ClosedOf(cfg, peer.infos, ids)
    ensures AsksFor(cfg, table, peer, offset, txids)
  {
    hide ClosedIn, CaughtUp, Agreed, Records, ParentClosed;
    ClosedOfMembers(cfg, peer.infos, ids);
  }

  lemma PassBegins(c: Chain, cfg: Config, height: Txid -> int, infos: Infos, peers: seq<Peer>)
    requires Records(c, height, infos)
    ensures Progress(c, cfg, height, infos, infos, peers, |peers|, 0, 0)
  {
  }

  lemma CurrentKeys(cfg: Config, infos: Infos, table: Table, n: nat, ids: set<int>)
    requires TableCurrent(cfg, infos, table, n) && forall id :: id in ids <==> 0 <= id < n
    ensures table.Keys == ids
  {
    hide Fresh;
    forall id ensures id in table.Keys <==> id in ids {
      assert id in table <==> 0 <= id < n;
    }
  }

  lemma UnmarkedIsFresh(cfg: Config, infos: Infos, table: Table, id: int)
    requires TrackedAt(cfg, infos, table, {}, id) && id in table && id >= 0
    ensures Fresh(cfg, infos, table, id)
  {
  }

  lemma HeadIsMember(txids: seq<Txid>)
    ensures txids == [] || txids[0] in txids
  {
  }

  /** A fetchable request leaves neither of the two loops anything to report. */
  lemma NothingMissing(c: Chain, cfg: Config, infos: Infos, txids: seq<Txid>, source: map<Txid, MsgTx>,
    mapi: Txid -> TxStatus, lackTxids: seq<Txid>, open: seq<MsgTx>, dirty: set<int>, errs: seq<Txid>, lost: seq<Txid>)
    requires Obtainable(c, infos, txids, source, mapi) && Collected(cfg, infos, txids, mapi, lackTxids, open, dirty)
    requires forall t :: t in errs <==> t in txids && t !in infos && mapi(t).Failure?
    requires forall t | t in lost :: t in lackTxids && t !in source
    ensures errs == [] && lost == []
  {
    hide IsBadgeParent, StillOpen, MarkOf;
    HeadIsMember(errs);
    HeadIsMember(lost);
  }

  /** What the search loop leaves for the fetch loop is unknown here and known to the base chain. */
  lemma LackIsFetched(c: Chain, cfg: Config, infos: Infos, txids: seq<Txid>, source: map<Txid, MsgTx>,
    mapi: Txid -> TxStatus, lackTxids: seq<Txid>, open: seq<MsgTx>, dirty: set<int>)
    requires FromChain(c, source) && Collected(cfg, infos, txids, mapi, lackTxids, open, dirty)
    ensures forall t | t in lackTxids :: t in txids && t !in infos && mapi(t).Success?
    ensures forall t | t in source :: source[t].txid == t
  {
  }

  /** What the two loops reported and what the pass failed on is exactly what is not closed afterwards. */
  lemma SyncErrors(c: Chain, cfg: Config, l: Ledger, infos': Infos, txids: seq<Txid>, lackTxids: seq<Txid>,
    open: seq<MsgTx>, source: map<Txid, MsgTx>, mapi: Txid -> TxStatus, msgTxs: seq<MsgTx>, dirty: set<int>,
    dirty': set<int>, sorted: seq<MsgTx>, ts: int, errs: seq<Txid>, lost: seq<Txid>)
    requires LedgerOk(c, l) && LedgerOk(c, l.(infos := infos')) && FromChain(c, source)
             && cfg.startHeight >= 0 && dirty <= dirty'
    requires Collected(cfg, l.infos, txids, mapi, lackTxids, open, dirty)
    requires Fetched(cfg, l.infos, infos', lackTxids, source, mapi, msgTxs, dirty')
    requires SameBatch(open + msgTxs, sorted) && Topological(sorted)
    requires forall t :: t in errs <==> t in txids && t !in l.infos && mapi(t).Failure?
    requires forall t :: t in lost <==> t in lackTxids && t !in source
    ensures var l' := l.(infos := infos');
            forall t | t in txids ::
              t in errs + lost + FailedIn(sorted, OutcomesOf(l', sorted, ts)) <==>
              !ClosedTx(ProcessAll(l', sorted, ts).infos, t)
  {
    hide LedgerOk, Collected, Fetched, FromChain, SameBatch, Topological, ProcessAll, OutcomesOf, FailedIn, Mentions;
    var l' := l.(infos := infos');
    SameBatchMembers(open + msgTxs, sorted);
    forall tx | tx in sorted ensures ChainTx(c, tx) && tx.txid in infos' {
      BatchIsRequested(c, cfg, l, infos', txids, lackTxids, open, source, mapi, msgTxs, dirty, dirty', tx);
    }
    ProcessAllFrame(l', sorted, ts);
    forall t | t in txids
      ensures t in errs + lost + FailedIn(sorted, OutcomesOf(l', sorted, ts)) <==>
              !ClosedTx(ProcessAll(l', sorted, ts).infos, t)
    {
      FailedIsOpen(c, l', sorted, ts, t);
      RequestedIs(cfg, l.infos, infos', txids, lackTxids, open, source, mapi, msgTxs, dirty, dirty', t);
    }
  }

  /** What becomes of a requested transaction: closed already, reported by a loop, or in the batch. */
  lemma RequestedIs(cfg: Config, infos: Infos, infos': Infos, txids: seq<Txid>, lackTxids: seq<Txid>, open: seq<MsgTx>,
    source: map<Txid, MsgTx>, mapi: Txid -> TxStatus, msgTxs: seq<MsgTx>, dirty: set<int>, dirty': set<int>, t: Txid)
    requires Collected(cfg, infos, txids, mapi, lackTxids, open, dirty)
    requires Fetched(cfg, infos, infos', lackTxids, source, mapi, msgTxs, dirty') && t in txids
    ensures var missing := (t !in infos && mapi(t).Failure?) || (t in lackTxids && t !in source);
            if Mentions(open + msgTxs, t) then t in infos' && !missing
            else if missing then t !in infos'
            else ClosedTx(infos, t) && ClosedTx(infos', t) && t in infos
  {
    hide MarkOf;
    MentionsConcat(open, msgTxs, t);
    forall t | Mentions(open, t) ensures t in infos {
      var j :| 0 <= j < |open| && open[j].txid == t;
      assert open[j] in open;
    }
    forall t | Mentions(msgTxs, t) ensures t in lackTxids && t in source && t in infos' {
      var j :| 0 <= j < |msgTxs| && msgTxs[j].txid == t;
      assert msgTxs[j] in msgTxs;
    }
  }

  lemma MentionsConcat(txs: seq<MsgTx>, txs': seq<MsgTx>, t: Txid)
    ensures Mentions(txs + txs', t) <==> Mentions(txs, t) || Mentions(txs', t)
  {
    var all := txs + txs';
    if Mentions(txs, t) {
      var j :| 0 <= j < |txs| && txs[j].txid == t;
      assert all[j].txid == t;
    }
    if Mentions(txs', t) {
      var j :| 0 <= j < |txs'| && txs'[j].txid == t;
      assert all[|txs| + j].txid == t;
    }
  }

  /** SyncTxs reports the meaning of everything it closes, and nothing but meanings of what was requested. */
  lemma SyncReports(c: Chain, cfg: Config, l: Ledger, infos': Infos, txids: seq<Txid>, lackTxids: seq<Txid>,
    open: seq<MsgTx>, source: map<Txid, MsgTx>, mapi: Txid -> TxStatus, msgTxs: seq<MsgTx>, dirty: set<int>,
    dirty': set<int>, sorted: seq<MsgTx>, ts: int)
    requires LedgerOk(c, l) && LedgerOk(c, l.(infos := infos')) && FromChain(c, source) && cfg.startHeight >= 0
             && dirty <= dirty'
    requires Collected(cfg, l.infos, txids, mapi, lackTxids, open, dirty)
    requires Fetched(cfg, l.infos, infos', lackTxids, source, mapi, msgTxs, dirty')
    requires SameBatch(open + msgTxs, sorted)
    ensures var l' := l.(infos := infos'); var inventories := InventoriesIn(OutcomesOf(l', sorted, ts));
            && (forall inv | inv in inventories :: IsMeaningOf(c, txids, ts, inv))
            && (forall t | t in c.txs && ClosedTx(ProcessAll(l', sorted, ts).infos, t) && !ClosedTx(l.infos, t) ::
                  Meaning(c, t, ts) in inventories)
  {
    hide LedgerOk, Collected, FromChain, Meaning, ProcessAll, OutcomesOf, InventoriesIn, MarkOf;
    var l' := l.(infos := infos');
    SameBatchMembers(open + msgTxs, sorted);
    forall tx | tx in sorted ensures ChainTx(c, tx) && tx.txid in txids {
      BatchIsRequested(c, cfg, l, infos', txids, lackTxids, open, source, mapi, msgTxs, dirty, dirty', tx);
    }
    PassReports(c, l', sorted, ts);
    forall t ensures ClosedTx(infos', t) ==> ClosedTx(l.infos, t) {
      FetchedIsNew(cfg, l.infos, infos', lackTxids, source, mapi, msgTxs, dirty', t);
    }
  }

  lemma FetchedIsNew(cfg: Config, infos: Infos, infos': Infos, lackTxids: seq<Txid>, source: map<Txid, MsgTx>,
    mapi: Txid -> TxStatus, msgTxs: seq<MsgTx>, dirty: set<int>, t: Txid)
    requires Fetched(cfg, infos, infos', lackTxids, source, mapi, msgTxs, dirty)
    ensures ClosedTx(infos', t) ==> ClosedTx(infos, t)
  {
  }

  // ----- two nodes

  lemma CurrentIsContiguous(cfg: Config, infos: Infos, table: Table, n: nat)
    requires TableCurrent(cfg, infos, table, n)
    ensures Contiguous(table, n) && |table| == n
  {
    hide Fresh;
    ContiguousCount(table.Keys, n);
  }

  /** A node with a current table and closed parents answers as a pull expects of a peer. */
  lemma PeerAnswers(c: Chain, cfg: Config, height: Txid -> int, peer: Peer, m: nat)
    requires Records(c, height, peer.infos) && ParentClosed(c, peer.infos) && Legible(cfg, peer.infos)
    requires TableCurrent(cfg, peer.infos, peer.table, m)
    ensures PeerOk(c, cfg, height, peer) && FromChain(c, TableOf(peer))
  {
    hide Fresh, ParentClosed;
    CurrentIsContiguous(cfg, peer.infos, peer.table, m);
  }

  /** What was pulled from a legible peer is legible. */
  lemma PulledIsLegible(c: Chain, cfg: Config, height: Txid -> int, infos: Infos, infos': Infos, peer: Peer)
    requires Records(c, height, infos) && Records(c, height, infos') && Records(c, height, peer.infos)
    requires OnlyFrom(infos, infos', [peer]) && Legible(cfg, infos) && Legible(cfg, peer.infos)
    ensures Legible(cfg, infos')
  {
    hide Fits;
  }

  lemma NodeIsReady(c: Chain, cfg: Config, height: Txid -> int, mapi: Txid -> TxStatus, infos: Infos, table: Table,
    n: nat, peer: Peer)
    requires Agreed(c, cfg, height, mapi) && Records(c, height, infos) && TableCurrent(cfg, infos, table, n)
             && PeerOk(c, cfg, height, peer)
    ensures PassReady(c, cfg, height, mapi, infos, table.Keys, n, [peer]) && Tracked(cfg, infos, table, {})
    ensures cfg.startHeight >= 0
  {
    hide DigestOf, Records, PeerOk;
    assert forall id :: id in table.Keys <==> id in table;
  }

  // ----- unconfirmed transactions

  /** What GetUnconfirmTxids answers: closed transactions at heights -1 and 0. */
  function Unconfirmed(infos: Infos): set<Txid> {
    ClosedBetween(infos, UNCONFIRM_TX_HEIGHT, 1)
  }

  /**
   * The base chain knows the peer's unconfirmed transactions, they can be read, and their badge parents come along or
   * are closed here.
   */
  ghost predicate Offers(c: Chain, cfg: Config, infos: Infos, peer: Peer, mapi: Txid -> TxStatus) {
    forall t | t in Unconfirmed(peer.infos) ::
      mapi(t).Success? && Fits(cfg, peer.infos[t].msgTx)
        && forall p | IsBadgeParent(c, t, p) :: ClosedTx(infos, p) || p in Unconfirmed(peer.infos)
  }

  ghost predicate Has(infos: Infos, txids: set<Txid>) {
    forall t | t in txids :: ClosedTx(infos, t)
  }

  ghost predicate ClosedGrow(infos: Infos, infos': Infos) {
    forall t | ClosedTx(infos, t) :: ClosedTx(infos', t)
  }

  lemma SameGrow(infos: Infos)
    ensures ClosedGrow(infos, infos)
  {
  }

  lemma GrowTrans(infos: Infos, infos': Infos, infos'': Infos)
    requires ClosedGrow(infos, infos') && ClosedGrow(infos', infos'')
    ensures ClosedGrow(infos, infos'')
  {
  }

  lemma HasGrows(infos: Infos, infos': Infos, txids: set<Txid>)
    requires Has(infos, txids) && ClosedGrow(infos, infos')
    ensures Has(infos', txids)
  {
  }

  lemma OffersGrow(c: Chain, cfg: Config, infos: Infos, infos': Infos, peer: Peer, mapi: Txid -> TxStatus)
    requires Offers(c, cfg, infos, peer, mapi) && ClosedGrow(infos, infos')
    ensures Offers(c, cfg, infos', peer, mapi)
  {
    hide IsBadgeParent, Fits;
  }

  lemma OfferIsFetchable(c: Chain, cfg: Config, l: Ledger, peer: Peer, mapi: Txid -> TxStatus, txids: seq<Txid>)
    requires LedgerOk(c, l) && FromChain(c, TableOf(peer)) && Offers(c, cfg, l.infos, peer, mapi)
    requires forall t :: t in txids <==> t in Unconfirmed(peer.infos)
    ensures Fetchable(c, cfg, l.infos, txids, SourceOf(peer), mapi)
  {
    hide IsBadgeParent, StoreOk, MarksOk, HasAll, Points, Fits;
    assert forall t | t in TableOf(peer) :: TableOf(peer)[t] == c.txs[t];
  }

  /** Nothing a legible peer is asked for stalls the call. */
  lemma LegibleNeverStalls(c: Chain, cfg: Config, l: Ledger, peer: Peer, mapi: Txid -> TxStatus, txids: seq<Txid>)
    requires LedgerOk(c, l) && FromChain(c, TableOf(peer)) && Legible(cfg, peer.infos)
    requires forall t | t in txids :: ClosedTx(peer.infos, t)
    ensures forall t | t in txids :: !Unreadable(cfg, l.infos, SourceOf(peer), mapi, t)
  {
    hide StoreOk, MarksOk, HasAll, Points, Fits;
    forall t | t in txids ensures !Unreadable(cfg, l.infos, SourceOf(peer), mapi, t) {
      assert t in TableOf(peer) && TableOf(peer)[t] == c.txs[t];
    }
  }

  /** What the two reading steps of SyncTxs stall on, taken together. */
  lemma StallsExactly(cfg: Config, infos: Infos, txids: seq<Txid>, source: TxSource, mapi: Txid -> TxStatus,
    lackTxids: seq<Txid>, open: seq<MsgTx>, dirty: set<int>)
    requires Collected(cfg, infos, txids, mapi, lackTxids, open, dirty)
    requires forall t | t in txids && t in infos :: !Unreadable(cfg, infos, source, mapi, t)
    ensures (source.FromPeer? && exists t | t in lackTxids :: t in source.txs && !Fits(cfg, source.txs[t])) <==>
            exists t | t in txids :: Unreadable(cfg, infos, source, mapi, t)
  {
    hide MarkOf, Fits;
    forall t | Mentions(open, t) ensures t in infos {
      var j :| 0 <= j < |open| && open[j].txid == t;
      assert open[j] in open;
    }
  }

  lemma FetchableIsReadable(c: Chain, cfg: Config, infos: Infos, txids: seq<Txid>, source: TxSource,
    mapi: Txid -> TxStatus)
    requires Fetchable(c, cfg, infos, txids, source, mapi)
    ensures Obtainable(c, infos, txids, source.txs, mapi)
    ensures forall t | t in txids :: !Unreadable(cfg, infos, source, mapi, t)
  {
    hide Unreadable, Obtainable;
  }

  lemma UnreadableHere(cfg: Config, infos: Infos, source: TxSource, mapi: Txid -> TxStatus)
    ensures forall t | t in infos ::
            Unreadable(cfg, infos, source, mapi, t) <==> infos[t].state != Closed && !Fits(cfg, infos[t].msgTx)
  {
  }

  /** A call that stalled before recording anything has changed nothing but marks. */
  lemma StalledIsSynced(c: Chain, cfg: Config, infos: Infos, txids: seq<Txid>, mapi: Txid -> TxStatus, dirty: set<int>)
    ensures Synced(c, cfg, infos, infos, txids, mapi, dirty)
  {
    hide MarkOf;
  }

  /** A transaction recorded by SyncTxs has the reported height, or -1 when the base chain names no block. */
  lemma SyncedHeights(c: Chain, cfg: Config, infos: Infos, infos': Infos, txids: seq<Txid>, mapi: Txid -> TxStatus,
    dirty': set<int>)
    requires Synced(c, cfg, infos, infos', txids, mapi, dirty')
    ensures forall t | t in infos' && t !in infos ::
              mapi(t).Success? && infos'[t].height == if mapi(t).blockHash == "" then -1 else mapi(t).blockHeight
  {
    hide MarkOf, MarksChanges;
  }

  lemma SyncedGrows(c: Chain, cfg: Config, infos: Infos, infos': Infos, txids: seq<Txid>, mapi: Txid -> TxStatus,
    dirty': set<int>)
    requires Synced(c, cfg, infos, infos', txids, mapi, dirty')
    ensures ClosedGrow(infos, infos')
  {
    hide MarkOf;
  }

  lemma SyncedTracks(c: Chain, cfg: Config, infos: Infos, infos': Infos, txids: seq<Txid>, mapi: Txid -> TxStatus,
    table: Table, dirty: set<int>, dirty': set<int>)
    requires Synced(c, cfg, infos, infos', txids, mapi, dirty') && dirty <= dirty'
    ensures KeepsTracking(cfg, infos, table, dirty, infos', table, dirty')
  {
    MarkingTracks(cfg, infos, infos', table, dirty, dirty');
  }

  /** No transaction lies above the partitions 0..n-1. */
  ghost predicate HeightsBelow(c: Chain, cfg: Config, height: Txid -> int, mapi: Txid -> TxStatus, n: int) {
    && (forall t | t in c.txs :: forall d | d in MarkOf(cfg, height(t)) :: 0 <= d < n)
    && (forall t | mapi(t).Success? :: forall d | d in MarkOf(cfg, mapi(t).blockHeight) :: 0 <= d < n)
  }

  ghost predicate Below(ids: set<int>, n: int) {
    forall d | d in ids :: 0 <= d < n
  }

  lemma MarksBelow(c: Chain, cfg: Config, height: Txid -> int, mapi: Txid -> TxStatus, infos: Infos, txids: seq<Txid>,
    dirty: set<int>, dirty': set<int>, n: int)
    requires Records(c, height, infos) && HeightsBelow(c, cfg, height, mapi, n)
    requires MarksOnly(cfg, infos, mapi, txids, dirty, dirty') && Below(dirty, n)
    ensures Below(dirty', n)
  {
    hide MarkOf;
  }

  /** Chain and node agree on heights, and nothing recorded or marked lies above partition n-1. */
  ghost predicate Placed(c: Chain, cfg: Config, height: Txid -> int, mapi: Txid -> TxStatus, infos: Infos,
    dirty: set<int>, n: int)
  {
    Reports(c, height, mapi) && Records(c, height, infos) && HeightsBelow(c, cfg, height, mapi, n) && Below(dirty, n)
  }

  lemma SyncedPlaced(c: Chain, cfg: Config, height: Txid -> int, mapi: Txid -> TxStatus, infos: Infos, infos': Infos,
    txids: seq<Txid>, dirty: set<int>, dirty': set<int>, n: int)
    requires Placed(c, cfg, height, mapi, infos, dirty, n)
    requires Synced(c, cfg, infos, infos', txids, mapi, dirty') && MarksOnly(cfg, infos, mapi, txids, dirty, dirty')
    ensures Placed(c, cfg, height, mapi, infos', dirty', n)
  {
    hide Reports, Records, HeightsBelow, Below, Synced, MarksOnly;
    SyncedRecords(c, cfg, height, mapi, infos, infos', txids, dirty');
    MarksBelow(c, cfg, height, mapi, infos, txids, dirty, dirty', n);
  }

  /** What SyncState needs for a full pass: chain and peers agree, and nothing is recorded above the current height. */
  ghost predicate StateReady(c: Chain, cfg: Config, height: Txid -> int, mapi: Txid -> TxStatus, infos: Infos,
    ids: set<int>, n: int, peers: seq<Peer>)
  {
    && Agreed(c, cfg, height, mapi) && Records(c, height, infos) && HeightsBelow(c, cfg, height, mapi, n)
      && Below(ids, n)
    && (forall peer | peer in peers :: PeerOk(c, cfg, height, peer))
  }

  lemma MarkedIsReady(c: Chain, cfg: Config, height: Txid -> int, mapi: Txid -> TxStatus, infos0: Infos, ids0: set<int>,
    infos: Infos, keys: set<int>, dirty: set<int>, dirty': set<int>, n: nat, peers: seq<Peer>)
    requires StateReady(c, cfg, height, mapi, infos0, ids0, n, peers) && Placed(c, cfg, height, mapi, infos, dirty, n)
    requires keys <= ids0 && forall id :: id in dirty' <==> id in dirty || 0 <= id < n
    ensures PassReady(c, cfg, height, mapi, infos, keys + dirty', n, peers)
  {
    hide Agreed, Records, HeightsBelow, PeerOk;
    forall id ensures id in keys + dirty' <==> 0 <= id < n {
      assert id in keys ==> id in ids0;
    }
  }

  lemma ProgressCatchesUp(c: Chain, cfg: Config, height: Txid -> int, before: Infos, infos: Infos, peers: seq<Peer>,
    n: int)
    requires Progress(c, cfg, height, before, infos, peers, 0, n, n)
    ensures forall peer | peer in peers :: CaughtUp(cfg, infos, peer, n)
  {
    hide CaughtUp, Records, Pulled, OnlyFrom, ParentClosed;
  }

  lemma UnconfirmedIsClosed(infos: Infos)
    ensures forall t | t in Unconfirmed(infos) :: ClosedTx(infos, t)
  {
  }

  lemma ReadyIsPlaced(c: Chain, cfg: Config, height: Txid -> int, mapi: Txid -> TxStatus, infos: Infos, keys: set<int>,
    dirty: set<int>, n: int, peers: seq<Peer>)
    requires StateReady(c, cfg, height, mapi, infos, keys + dirty, n, peers)
    ensures Placed(c, cfg, height, mapi, infos, dirty, n)
    ensures forall peer | peer in peers :: Legible(cfg, peer.infos)
  {
    hide Reports, InjectiveHash, ParentsNoHigher, Records, HeightsBelow, ParentClosed, TableCurrent, Legible;
  }

  lemma PageReadyTable(c: Chain, cfg: Config, height: Txid -> int, mapi: Txid -> TxStatus, infos: Infos, table: Table,
    n: nat, peer: Peer, offset: nat)
    requires PageReady(c, cfg, height, mapi, infos, table, n, peer, offset)
    ensures TableCurrent(cfg, infos, table, n) && Contiguous(table, n) && Contiguous(peer.table, |peer.table|)
  {
    hide Agreed, Records, CaughtUp, Fresh, ParentClosed, Legible;
  }

  /** Everything asked is closed and the marked partitions are recomputed: the page is pulled and the table current. */
  lemma PageEnds(c: Chain, cfg: Config, height: Txid -> int, mapi: Txid -> TxStatus, infos: Infos, infos': Infos,
    table: Table, table': Table, n: nat, peer: Peer, offset: nat, txids: seq<Txid>, dirty': set<int>)
    requires PageReady(c, cfg, height, mapi, infos, table, n, peer, offset) && AsksFor(cfg, table, peer, offset, txids)
    requires Synced(c, cfg, infos, infos', txids, mapi, dirty') && forall t | t in txids :: ClosedTx(infos', t)
    requires MarksOnly(cfg, infos, mapi, txids, {}, dirty') && Recomputed(cfg, infos', table, dirty', table')
    ensures PagePulled(c, cfg, height, infos, infos', n, peer, offset) && TableCurrent(cfg, infos', table', n)
  {
    hide PageReady, AsksFor, Synced, MarksOnly, Tracked, Recomputed, PagePulled, TableCurrent, ClosedTx;
    SyncedPage(c, cfg, height, mapi, infos, infos', table, n, peer, offset, txids, dirty');
    PageMarks(c, cfg, height, mapi, infos, table, n, peer, offset, txids, dirty');
    PageReadyTable(c, cfg, height, mapi, infos, table, n, peer, offset);
    CurrentIsTracked(cfg, infos, table, n);
    SyncedTracks(c, cfg, infos, infos', txids, mapi, table, {}, dirty');
    TrackingKept(cfg, infos, table, {}, infos', table, dirty');
    TableStaysCurrent(cfg, infos, infos', table, table', n, dirty');
  }

  lemma RecomputedKeys(cfg: Config, infos: Infos, table: Table, dirty: set<int>, table': Table)
    requires Recomputed(cfg, infos, table, dirty, table')
    ensures table'.Keys == table.Keys + (dirty - {-1})
  {
    hide Fresh;
  }

  // ----- what every call keeps

  /** The tables of a node and its marks. */
  datatype Node = Node(ledger: Ledger, table: Table, dirty: set<int>)

  /** Closed transactions stay closed, tracked partitions stay tracked, and a tidy ledger stays tidy. */
  ghost predicate Keeps(c: Chain, cfg: Config, s: Node, s': Node) {
    && ClosedGrow(s.ledger.infos, s'.ledger.infos)
    && KeepsTracking(cfg, s.ledger.infos, s.table, s.dirty, s'.ledger.infos, s'.table, s'.dirty)
    && (Tidy(c, s.ledger) ==> Tidy(c, s'.ledger))
  }

  lemma KeepsSame(c: Chain, cfg: Config, s: Node)
    ensures Keeps(c, cfg, s, s)
  {
    hide Tidy, TrackedAt;
  }

  lemma KeepsTrans(c: Chain, cfg: Config, s: Node, s': Node, s'': Node)
    requires Keeps(c, cfg, s, s') && Keeps(c, cfg, s', s'')
    ensures Keeps(c, cfg, s, s'')
  {
    hide Tidy, TrackedAt;
  }

  lemma KeepsClear(c: Chain, cfg: Config, s: Node, table': Table)
    requires Recomputed(cfg, s.ledger.infos, s.table, s.dirty, table')
    ensures Keeps(c, cfg, s, Node(s.ledger, table', {}))
  {
    hide Tidy, Recomputed, KeepsTracking;
    RecomputedTracks(cfg, s.ledger.infos, s.table, s.dirty, table');
  }

  lemma KeepsMarks(c: Chain, cfg: Config, s: Node, dirty': set<int>)
    requires s.dirty <= dirty'
    ensures Keeps(c, cfg, s, s.(dirty := dirty'))
  {
    hide Tidy, Fresh;
  }

  lemma TrackingKept(cfg: Config, infos: Infos, table: Table, dirty: set<int>, infos': Infos, table': Table,
    dirty': set<int>)
    requires Tracked(cfg, infos, table, dirty) && KeepsTracking(cfg, infos, table, dirty, infos', table', dirty')
    ensures Tracked(cfg, infos', table', dirty')
  {
    hide TrackedAt;
  }

  lemma CurrentIsTracked(cfg: Config, infos: Infos, table: Table, n: nat)
    requires TableCurrent(cfg, infos, table, n)
    ensures Tracked(cfg, infos, table, {})
  {
    hide DigestOf;
  }

  /** A table whose every partition is marked is tracked, however stale it is. */
  lemma AllMarkedIsTracked(cfg: Config, infos: Infos, table: Table, dirty: set<int>)
    requires forall id | id in table && id >= 0 :: id in dirty
    ensures Tracked(cfg, infos, table, dirty)
  {
    hide Fresh;
  }

  lemma SyncedKeeps(c: Chain, cfg: Config, s: Node, s': Node, txids: seq<Txid>, mapi: Txid -> TxStatus)
    requires Synced(c, cfg, s.ledger.infos, s'.ledger.infos, txids, mapi, s'.dirty) && s.dirty <= s'.dirty
             && s'.table == s.table
    requires Tidy(c, s.ledger) ==> Tidy(c, s'.ledger)
    ensures Keeps(c, cfg, s, s')
  {
    hide Synced, Tidy, KeepsTracking;
    SyncedGrows(c, cfg, s.ledger.infos, s'.ledger.infos, txids, mapi, s'.dirty);
    SyncedTracks(c, cfg, s.ledger.infos, s'.ledger.infos, txids, mapi, s.table, s.dirty, s'.dirty);
  }

  lemma KeepsTracked(c: Chain, cfg: Config, s: Node, s': Node)
    requires Keeps(c, cfg, s, s') && Tracked(cfg, s.ledger.infos, s.table, s.dirty)
    ensures Tracked(cfg, s'.ledger.infos, s'.table, s'.dirty)
  {
    hide Tidy, TrackedAt;
  }

  /** A marked partition, once the marks are gone and it is stored, is fresh. */
  lemma MarkedIsFresh(c: Chain, cfg: Config, s: Node, s': Node, id: int)
    requires Keeps(c, cfg, s, s') && id in s.dirty && s'.dirty == {} && id in s'.table && id >= 0
    ensures Fresh(cfg, s'.ledger.infos, s'.table, id)
  {
    hide Tidy, Fresh;
    assert TrackedAt(cfg, s.ledger.infos, s.table, s.dirty, id);
  }

  lemma ReadyIsTracked(c: Chain, cfg: Config, height: Txid -> int, mapi: Txid -> TxStatus, infos0: Infos,
    ids0: set<int>, infos: Infos, table: Table, dirty: set<int>, n: nat, peers: seq<Peer>)
    requires StateReady(c, cfg, height, mapi, infos0, ids0, n, peers) && table.Keys <= ids0
    requires forall id | 0 <= id < n :: id in dirty
    ensures Tracked(cfg, infos, table, dirty)
  {
    hide Agreed, Records, HeightsBelow, PeerOk, Tracked;
    forall id | id in table && id >= 0 ensures id in dirty {
      assert id in table.Keys && id in ids0;
    }
    AllMarkedIsTracked(cfg, infos, table, dirty);
  }

  lemma RowsTidy(c: Chain, rows: map<Key, TxPoint>, l: Ledger)
    requires SameRows(rows, l.points)
    ensures Tidy(c, l.(points := rows)) ==> Tidy(c, l)
  {
    if Tidy(c, l.(points := rows)) {
      SameTidy(c, l.(points := rows), l);
    }
  }

  /** What a peer has closed at heights -1 and 0 is what it was asked for, and stays closed. */
  lemma HasUnconfirmed(infos: Infos, infos': Infos, peer: Peer, t: Txid)
    requires Has(infos, Unconfirmed(peer.infos)) && ClosedGrow(infos, infos')
    requires ClosedTx(peer.infos, t) && -1 <= peer.infos[t].height <= 0
    ensures ClosedTx(infos', t)
  {
  }

  lemma KeepsClosed(c: Chain, cfg: Config, s: Node, s': Node)
    requires Keeps(c, cfg, s, s')
    ensures ClosedGrow(s.ledger.infos, s'.ledger.infos)
  {
    hide Tidy, KeepsTracking;
  }

  /** Recording and processing keep a ledger tidy. */
  lemma SyncTidy(c: Chain, cfg: Config, l: Ledger, infos': Infos, txids: seq<Txid>, lackTxids: seq<Txid>,
    open: seq<MsgTx>, source: map<Txid, MsgTx>, mapi: Txid -> TxStatus, msgTxs: seq<MsgTx>, dirty: set<int>,
    dirty': set<int>, sorted: seq<MsgTx>, ts: int)
    requires LedgerOk(c, l) && LedgerOk(c, l.(infos := infos')) && FromChain(c, source) && cfg.startHeight >= 0
             && dirty <= dirty'
    requires Collected(cfg, l.infos, txids, mapi, lackTxids, open, dirty)
    requires Fetched(cfg, l.infos, infos', lackTxids, source, mapi, msgTxs, dirty')
    requires SameBatch(open + msgTxs, sorted) && Tidy(c, l)
    ensures Tidy(c, ProcessAll(l.(infos := infos'), sorted, ts))
  {
    hide LedgerOk, Collected, Fetched, FromChain, Tidy, ProcessAll, MarkOf;
    var l' := l.(infos := infos');
    forall t ensures IsClosed(l', t) <==> IsClosed(l, t) {
      FetchedIsNew(cfg, l.infos, infos', lackTxids, source, mapi, msgTxs, dirty', t);
      StaysClosed(cfg, l.infos, infos', lackTxids, source, mapi, msgTxs, dirty', t);
    }
    SameTidy(c, l, l');
    SameBatchMembers(open + msgTxs, sorted);
    forall tx | tx in sorted ensures ChainTx(c, tx) && tx.txid in infos' {
      BatchIsRequested(c, cfg, l, infos', txids, lackTxids, open, source, mapi, msgTxs, dirty, dirty', tx);
    }
    ProcessAllTidy(c, l', sorted, ts);
  }

  /** On a tidy ledger the badge parents of a closed transaction are closed. */
  lemma TidyParents(c: Chain, l: Ledger)
    requires Tidy(c, l)
    ensures ParentClosed(c, l.infos)
  {
    forall t, p | ClosedTx(l.infos, t) && IsBadgeParent(c, t, p) ensures ClosedTx(l.infos, p) {
      var vin :| vin in c.txs[t].ins && IsBadgeVin(vin) && vin.prev.txid == p;
      var i :| 0 <= i < |c.txs[t].ins| && c.txs[t].ins[i] == vin;
      assert IsClosed(l, t) && InputsKnown(l, c.txs[t]);
      assert Known(l, c.txs[t].ins[i].prev);
    }
  }

  // ----- the loops of SyncPatitions

  /** A page may be pulled from all peers: the partitions are 0..n-1 and every peer is caught up with below the page. */
  ghost predicate PagesReady(c: Chain, cfg: Config, height: Txid -> int, mapi: Txid -> TxStatus, before: Infos,
    ids: set<int>, infos: Infos, keys: set<int>, n: nat, peers: seq<Peer>, offset: nat)
  {
    && PassReady(c, cfg, height, mapi, before, ids, n, peers) && keys == ids
    && Progress(c, cfg, height, before, infos, peers, 0, Min(offset, n), Min(offset + COMPARE_PARTITIONS_COUNT, n))
  }

  ghost predicate PagesPulled(c: Chain, cfg: Config, height: Txid -> int, before: Infos, ids: set<int>, infos: Infos,
    table: Table, n: nat, peers: seq<Peer>, offset: nat)
  {
    && Progress(c, cfg, height, before, infos, peers, |peers|, Min(offset, n),
      Min(offset + COMPARE_PARTITIONS_COUNT, n))
    && TableCurrent(cfg, infos, table, n) && table.Keys == ids
  }

  /** The page has been pulled from the first `j` peers. */
  ghost predicate AtPeer(c: Chain, cfg: Config, height: Txid -> int, mapi: Txid -> TxStatus, before: Infos,
    ids: set<int>, infos: Infos, table: Table, n: nat, peers: seq<Peer>, j: nat, offset: nat)
  {
    && PassReady(c, cfg, height, mapi, before, ids, n, peers) && TableCurrent(cfg, infos, table, n)
    && Progress(c, cfg, height, before, infos, peers, j, Min(offset, n), Min(offset + COMPARE_PARTITIONS_COUNT, n))
  }

  lemma PagesBegin(c: Chain, cfg: Config, height: Txid -> int, mapi: Txid -> TxStatus, before: Infos, ids: set<int>,
    infos: Infos, table: Table, dirty: set<int>, table': Table, n: nat, peers: seq<Peer>, offset: nat)
    requires PagesReady(c, cfg, height, mapi, before, ids, infos, table.Keys + dirty, n, peers, offset)
    requires Tracked(cfg, infos, table, dirty) && Recomputed(cfg, infos, table, dirty, table')
    ensures AtPeer(c, cfg, height, mapi, before, ids, infos, table', n, peers, 0, offset)
  {
    hide Progress, TableCurrent, Tracked, Recomputed, Agreed, Records, PeerOk;
    ClearedIsCurrent(cfg, infos, table, dirty, table', n);
  }

  lemma AtPeerReady(c: Chain, cfg: Config, height: Txid -> int, mapi: Txid -> TxStatus, before: Infos, ids: set<int>,
    infos: Infos, table: Table, n: nat, peers: seq<Peer>, j: nat, offset: nat)
    requires AtPeer(c, cfg, height, mapi, before, ids, infos, table, n, peers, j, offset) && j < |peers|
    ensures PageReady(c, cfg, height, mapi, infos, table, n, peers[j], offset)
  {
    hide Progress, TableCurrent, PassReady, PageReady;
    PeerReady(c, cfg, height, mapi, before, ids, infos, table, n, peers, j, offset,
      Min(offset + COMPARE_PARTITIONS_COUNT, n));
  }

  lemma AtNextPeer(c: Chain, cfg: Config, height: Txid -> int, mapi: Txid -> TxStatus, before: Infos, ids: set<int>,
    infos: Infos, infos': Infos, table': Table, n: nat, peers: seq<Peer>, j: nat, offset: nat)
    requires PassReady(c, cfg, height, mapi, before, ids, n, peers) && j < |peers|
    requires Progress(c, cfg, height, before, infos, peers, j, Min(offset, n),
             Min(offset + COMPARE_PARTITIONS_COUNT, n))
    requires PagePulled(c, cfg, height, infos, infos', n, peers[j], offset) && TableCurrent(cfg, infos', table', n)
    ensures AtPeer(c, cfg, height, mapi, before, ids, infos', table', n, peers, j + 1, offset)
  {
    hide Progress, TableCurrent, PassReady, PagePulled;
    NextPeer(c, cfg, height, before, infos, infos', peers, j, n, offset);
  }

  lemma AllPeersPulled(c: Chain, cfg: Config, height: Txid -> int, mapi: Txid -> TxStatus, before: Infos, ids: set<int>,
    infos: Infos, table: Table, n: nat, peers: seq<Peer>, offset: nat)
    requires AtPeer(c, cfg, height, mapi, before, ids, infos, table, n, peers, |peers|, offset)
    ensures PagesPulled(c, cfg, height, before, ids, infos, table, n, peers, offset)
  {
    hide Progress, TableCurrent, Agreed, Records, PeerOk;
    CurrentKeys(cfg, infos, table, n, ids);
  }

  lemma PassStarts(c: Chain, cfg: Config, height: Txid -> int, mapi: Txid -> TxStatus, before: Infos, ids: set<int>,
    n: nat, peers: seq<Peer>)
    requires PassReady(c, cfg, height, mapi, before, ids, n, peers)
    ensures PagesReady(c, cfg, height, mapi, before, ids, before, ids, n, peers, 0)
  {
    hide Progress, Agreed, PeerOk;
    PassBegins(c, cfg, height, before, peers);
    NextPage(c, cfg, height, before, before, peers, 0, 0, Min(COMPARE_PARTITIONS_COUNT, n));
  }

  lemma PassContinues(c: Chain, cfg: Config, height: Txid -> int, mapi: Txid -> TxStatus, before: Infos, ids: set<int>,
    infos: Infos, table: Table, n: nat, peers: seq<Peer>, offset: nat)
    requires PassReady(c, cfg, height, mapi, before, ids, n, peers)
             && PagesPulled(c, cfg, height, before, ids, infos, table, n, peers, offset)
    ensures PagesReady(c, cfg, height, mapi, before, ids, infos, table.Keys + {}, n, peers,
            offset + COMPARE_PARTITIONS_COUNT)
    ensures TableCurrent(cfg, infos, table, n)
  {
    hide Progress, PassReady, TableCurrent;
    var lo, hi := Min(offset, n), Min(offset + COMPARE_PARTITIONS_COUNT, n);
    NextPage(c, cfg, height, before, infos, peers, lo, hi, Min(offset + 2 * COMPARE_PARTITIONS_COUNT, n));
    assert table.Keys + {} == table.Keys;
  }

  lemma PassEnds(c: Chain, cfg: Config, height: Txid -> int, mapi: Txid -> TxStatus, before: Infos, ids: set<int>,
    infos: Infos, keys: set<int>, n: nat, peers: seq<Peer>, offset: nat)
    requires PagesReady(c, cfg, height, mapi, before, ids, infos, keys, n, peers, offset) && offset >= n
    ensures Progress(c, cfg, height, before, infos, peers, 0, n, n)
  {
    hide Progress, PassReady;
  }
}
