/** The node as it runs: tables mutated row by row, loops over transactions, partitions and peers. */
module Server {
  import opened Int64
  import opened Script
  import opened Model
  import opened Chains
  import opened Store
  import opened Workers
  import opened Sorting
  import opened Orders
  import opened Batches
  import opened Closing
  import opened Partitions
  import opened Convergence
  import opened Syncing
  import opened Pruning

  class TouchstoneServer {
    const cfg: Config
    var points: map<Key, TxPoint>
    var infos: Infos
    var partitions: Table
    var dirty: set<int>  // NeedRecomputehashPartitionsCache

    constructor (cfg: Config)
      ensures this.cfg == cfg && points == map[] && infos == map[] && partitions == map[] && dirty == {}
      ensures forall c: Chain :: LedgerOk(c, Db()) && Tidy(c, Db())
    {
      this.cfg := cfg;
      points, infos, partitions, dirty := map[], map[], map[], {};
    }

    ghost function Db(): Ledger
      reads this
    {
      Ledger(points, infos)
    }

    ghost function State(): Node
      reads this
    {
      Node(Db(), partitions, dirty)
    }

    /** TxPointRepository.GetTxPoint for a vout; `IllegalVin` stands for "not found". */
    method ReadVout(op: OutPoint) returns (r: Lookup)
      ensures r == if VoutKey(op) in points then Found(points[VoutKey(op)]) else IllegalVin
    {
      r := if VoutKey(op) in points then Found(points[VoutKey(op)]) else IllegalVin;
    }

    method GetTxPoint(op: OutPoint) returns (r: Lookup)
      ensures r == LookupIn(Db(), op)
    {
      r := ReadVout(op);
      if r.Found? {
        return;
      }
      if op.txid !in infos {
        return UnknownUtxo;
      }
      if infos[op.txid].state != Closed {
        return UnknownUtxo;
      }
      r := ReadVout(op);  // the double check; it matters when another worker runs in between
    }

    /** The vin loop and its badgeValues map; `None` is the "unknow utxo" error. */
    method ScanTxIns(msgTx: MsgTx, ts: int) returns (r: Option<VinScan>, badgeValues: map<Txid, int>)
      ensures r == ScanVins(Db(), msgTx, ts, |msgTx.ins|)
      ensures r.Some? ==> Tallies(badgeValues, r.value.vins)
    {
      badgeValues := map[];
      var vins, illegalVin := [], false;
      for i := 0 to |msgTx.ins|
        invariant ScanVins(Db(), msgTx, ts, i) == Some(VinScan(vins, illegalVin))
        invariant Tallies(badgeValues, vins)
      {
        if !IsBadgeVin(msgTx.ins[i]) {
          continue;
        }
        var found := GetTxPoint(msgTx.ins[i].prev);
        match found {
          case UnknownUtxo =>
            ScanStaysUnknown(Db(), msgTx, ts, i + 1, |msgTx.ins|);
            return None, badgeValues;
          case IllegalVin =>
            illegalVin := true;
          case Found(p) =>
            TallyNext(badgeValues, vins, msgTx, i, ts, p);
            if p.badgeCode !in badgeValues {
              badgeValues := badgeValues[p.badgeCode := 0];
            }
            badgeValues := badgeValues[p.badgeCode := Add64(badgeValues[p.badgeCode], p.value)];
            vins := vins + [NewVin(msgTx, i, ts, p)];
        }
      }
      r := Some(VinScan(vins, illegalVin));
    }

    /** The vout loop; it gives up as soon as the outputs claim more than the budget. */
    method TakeTxOuts(msgTx: MsgTx, ts: int, code: Txid, budget: int) returns (r: Option<seq<TxPoint>>)
      ensures r == TakeVouts(msgTx, ts, code, budget, 0)
    {
      hide ParseBadgeVoutScript;
      var badgeValue, vouts := budget, [];
      PrependNone(TakeVouts(msgTx, ts, code, budget, 0));
      for j := 0 to |msgTx.outs|
        invariant TakeVouts(msgTx, ts, code, budget, 0) == Prepend(vouts, TakeVouts(msgTx, ts, code, badgeValue, j))
      {
        var parsed := ParseBadgeVoutScript(msgTx.outs[j].script);
        if parsed.None? {
          continue;
        }
        badgeValue := Sub64(badgeValue, parsed.value.value);
        if badgeValue < 0 {
          return None;
        }
        var p := NewVout(msgTx, j, ts, code, parsed.value);
        ghost var rest := TakeVouts(msgTx, ts, code, badgeValue, j + 1);
        if rest.Some? {
          PrependNext(vouts, p, rest.value);
        }
        vouts := vouts + [p];
      }
      assert vouts + [] == vouts;
      r := Some(vouts);
    }

    /** ParseMsgTx; `None` is the "unknow utxo" error. */
    method ParseMsgTx(msgTx: MsgTx, ts: int) returns (r: Option<TxInventory>)
      ensures r == Parse(Db(), msgTx, ts)
    {
      hide ParseBadgeVoutScript;
      var scan, badgeValues := ScanTxIns(msgTx, ts);
      if scan.None? {
        return None;
      }
      var VinScan(vins, illegalVin) := scan.value;
      TallyDecides(badgeValues, vins);
      if illegalVin || |badgeValues| > 1 {
        return Some(TxInventory(vins, []));
      }
      var badgeCode, badgeValue := msgTx.txid, MAX_CREATE_BADGE_VALUE;
      if badgeValues != map[] {
        badgeCode :| badgeCode in badgeValues;
        badgeValue := badgeValues[badgeCode];
      }
      assert badgeCode == BadgeCodeOf(msgTx, vins) && badgeValue == BudgetOf(vins);
      var vouts := TakeTxOuts(msgTx, ts, badgeCode, badgeValue);
      r := Some(TxInventory(vins, if vouts.None? then [] else vouts.value));
    }

    method AddTxPoint(p: TxPoint)
      modifies this`points
      ensures points == AddPoint(old(points), p)
    {
      if KeyOf(p) !in points {
        points := points[KeyOf(p) := p];
      }
    }

    /** ParseAndAddTxPoints: parse, then insert the vins, then the vouts. */
    method ParseAndAddTxPoints(msgTx: MsgTx, ts: int) returns (r: Option<TxInventory>)
      modifies this`points
      ensures r == Parse(old(Db()), msgTx, ts)
      ensures points == if r.None? then old(points) else AddPoints(old(points), Rows(r.value))
    {
      hide Parse;
      r := ParseMsgTx(msgTx, ts);
      if r.None? {
        return;
      }
      var rows := Rows(r.value);
      for k := 0 to |rows|
        invariant AddPoints(old(points), rows) == AddPoints(points, rows[k..])
      {
        assert rows[k..][1..] == rows[k + 1..];
        AddTxPoint(rows[k]);
      }
    }

    method SetMsgTxState(txid: Txid, state: TxState) returns (ok: bool)
      modifies this`infos
      ensures infos == SetState(old(infos), txid, state) && ok == (txid in old(infos))
    {
      ok := txid in infos;
      if ok {
        infos := infos[txid := infos[txid].(state := state)];
      }
    }

    method ProcessMsgTx(msgTx: MsgTx, ts: int) returns (r: Outcome)
      modifies this`points, this`infos
      ensures Db() == Process(old(Db()), msgTx, ts)
      ensures r == OutcomeOf(old(Db()), msgTx, ts)
    {
      var parsed := ParseAndAddTxPoints(msgTx, ts);
      var ok := SetMsgTxState(msgTx.txid, if parsed.None? then Open else Closed);
      if !ok {
        return NoTxInfo;
      }
      r := if parsed.None? then UnknowUtxo else Processed(parsed.value);
    }

    /**
     * ProcessMsgTxs: sort, then process in order, keeping inventories and errors apart. If the batch
     * is acyclic and supplied, every transaction ends closed and nothing is reported, whatever the
     * input order.
     */
    method ProcessMsgTxs(msgTxs: array<MsgTx>, ts: int) returns (inventories: seq<TxInventory>, errTxs: seq<Txid>)
      modifies this`points, this`infos, msgTxs
      ensures SameBatch(old(msgTxs[..]), msgTxs[..]) && (Acyclic(old(msgTxs[..])) ==> Topological(msgTxs[..]))
      ensures Db() == ProcessAll(old(Db()), msgTxs[..], ts)
      ensures inventories == InventoriesIn(OutcomesOf(old(Db()), msgTxs[..], ts))
      ensures errTxs == FailedIn(msgTxs[..], OutcomesOf(old(Db()), msgTxs[..], ts))
      ensures |inventories| + |errTxs| == msgTxs.Length
      ensures Acyclic(old(msgTxs[..])) && Supplied(old(Db()), old(msgTxs[..])) ==>
                && errTxs == [] && |inventories| == msgTxs.Length
                && (forall tx | tx in old(msgTxs[..]) :: IsClosed(Db(), tx.txid))
    {
      hide Process, OutcomeOf;
      ghost var batch := msgTxs[..];
      SortMsgTx(msgTxs);
      ghost var l, sorted := Db(), msgTxs[..];
      inventories, errTxs := [], [];
      for i := 0 to msgTxs.Length
        invariant msgTxs[..] == sorted
        invariant Db() == ProcessAll(l, sorted[..i], ts)
        invariant inventories == InventoriesIn(OutcomesOf(l, sorted[..i], ts))
        invariant errTxs == FailedIn(sorted[..i], OutcomesOf(l, sorted[..i], ts))
      {
        var outcome := ProcessMsgTx(msgTxs[i], ts);
        assert sorted[..i + 1] == sorted[..i] + [msgTxs[i]];
        ProcessAllNext(l, sorted[..i], msgTxs[i], ts);
        ReportNext(sorted[..i], msgTxs[i], OutcomesOf(l, sorted[..i], ts), outcome);
        if outcome.Processed? {
          inventories := inventories + [outcome.inventory];
        } else {
          errTxs := errTxs + [msgTxs[i].txid];
        }
      }
      assert sorted[..|sorted|] == sorted;
      ReportCount(sorted, OutcomesOf(l, sorted, ts));
      if Acyclic(batch) && Supplied(l, batch) {
        OnePass(l, batch, sorted, ts);
        AllProcessed(sorted, OutcomesOf(l, sorted, ts));
      }
    }

    // ----- partitions

    method AddNeedRecomputehashPartition(id: int)
      modifies this`dirty
      ensures dirty == old(dirty) + {id}
    {
      dirty := dirty + {id};
    }

    method AddNeedRecomputehashPartitionByHeight(height: int)
      modifies this`dirty
      ensures dirty == old(dirty) + MarkOf(cfg, height)
    {
      if height < cfg.startHeight {
        return;
      }
      AddNeedRecomputehashPartition((height - cfg.startHeight) / PARTITION_BLOCK_COUNT);
    }

    method ComputePartitionHash(id: int) returns (h: Digest)
      ensures h == DigestOf(cfg, infos, id)
      ensures exists txids: seq<Txid> :: h == cfg.hash(txids) && ListsClosed(cfg, infos, id, txids)
    {
      hide Listed, StrictTotal, StringLess, ListsClosed, Ascending;
      StringLessTotal();
      var lo := cfg.startHeight + id * PARTITION_BLOCK_COUNT;
      var txids := SortedList(ClosedBetween(infos, lo, lo + PARTITION_BLOCK_COUNT), StringLess);
      ListedIsDictionary(cfg, infos, id, txids);
      h := cfg.hash(txids);
    }

    method ComputeAndSetPartitionHash(id: int)
      modifies this`partitions
      ensures partitions == old(partitions)[id := DigestOf(cfg, infos, id)]
    {
      var h := ComputePartitionHash(id);
      if id !in partitions {
        partitions := partitions[id := h];
      }
      partitions := partitions[id := h];
    }

    /** ClearCacheAndSetHash: take the marks, then recompute each marked partition. */
    method ClearCacheAndSetHash()
      modifies this`partitions, this`dirty
      ensures dirty == {} && Recomputed(cfg, infos, old(partitions), old(dirty), partitions)
    {
      var cache := dirty;
      dirty := {};
      var todo := cache;
      ghost var done := {};
      RecomputeNothing(cfg, infos, partitions);
      hide Recomputed;
      while todo != {}
        invariant dirty == {} && done + todo == cache
        invariant Recomputed(cfg, infos, old(partitions), done, partitions)
        decreases todo
      {
        ghost var some := SomeMember(todo);
        var id :| id in todo;
        RecomputeNext(cfg, infos, old(partitions), done, partitions, id);
        todo, done := todo - {id}, done + {id};
        if id == -1 {
          continue;
        }
        ComputeAndSetPartitionHash(id);
      }
      assert done == cache;
    }

    // ----- SyncTxs

    /**
     * The search loop: which transactions to fetch, which to process again, which are closed. It never gets
     * past an open transaction that is too long to be read back; `stalled` is that.
     */
    method CollectTxs(txids: seq<Txid>, mapi: Txid -> TxStatus)
      returns (lackTxids: seq<Txid>, needProcessTx: seq<MsgTx>, alreadyClosedTxs: seq<Txid>, errTxs: seq<Txid>,
        stalled: bool)
      requires Keyed(infos)
      modifies this`dirty
      ensures stalled <==> exists t | t in txids :: t in infos && infos[t].state != Closed && !Fits(cfg, infos[t].msgTx)
      ensures !stalled ==> Collected(cfg, infos, txids, mapi, lackTxids, needProcessTx, dirty)
      ensures !stalled ==> forall t :: t in alreadyClosedTxs <==> t in txids && ClosedTx(infos, t)
      ensures !stalled ==> forall t :: t in errTxs <==> t in txids && t !in infos && mapi(t).Failure?
      ensures !stalled ==> |lackTxids| + |needProcessTx| + |alreadyClosedTxs| + |errTxs| == |txids|
      ensures MarksOnly(cfg, infos, mapi, txids, old(dirty), dirty)
    {
      hide Fits, MarkOf;
      lackTxids, needProcessTx, alreadyClosedTxs, errTxs, stalled := [], [], [], [], false;
      for n := 0 to |txids|
        invariant forall t | t in lackTxids :: t in txids && t !in infos && mapi(t).Success?
        invariant forall tx | tx in needProcessTx ::
                  StillOpen(infos, txids, tx) && MarkOf(cfg, infos[tx.txid].height) <= dirty
        invariant forall t | t in txids[..n] ::
                    ClosedTx(infos, t) || t in lackTxids || Mentions(needProcessTx, t)
                      || (t !in infos && mapi(t).Failure?)
        invariant old(dirty) <= dirty && forall d | d in dirty ::
                  d in old(dirty) || MarkedFor(cfg, infos, mapi, txids, d)
        invariant forall t :: t in alreadyClosedTxs <==> t in txids[..n] && ClosedTx(infos, t)
        invariant forall t :: t in errTxs <==> t in txids[..n] && t !in infos && mapi(t).Failure?
        invariant |lackTxids| + |needProcessTx| + |alreadyClosedTxs| + |errTxs| == n
        invariant !stalled && forall t | t in txids[..n] ::
                  t in infos && infos[t].state != Closed ==> Fits(cfg, infos[t].msgTx)
      {
        var t := txids[n];
        assert txids[..n + 1] == txids[..n] + [t];
        if t !in infos {
          if mapi(t).Success? {
            lackTxids := lackTxids + [t];
          } else {
            errTxs := errTxs + [t];
          }
        } else if infos[t].state == Closed {
          alreadyClosedTxs := alreadyClosedTxs + [t];
        } else {
          if !Fits(cfg, infos[t].msgTx) {
            stalled := true;
            return;
          }
          AddNeedRecomputehashPartitionByHeight(infos[t].height);
          PlacedMarks(needProcessTx, infos[t].msgTx);
          needProcessTx := needProcessTx + [infos[t].msgTx];
        }
      }
      assert txids[..|txids|] == txids;
    }

    /** GetTxs on an asked peer reads each requested transaction it has, and never gets past one that is too long. */
    method GetTxsStalls(txids: seq<Txid>, source: TxSource) returns (stalled: bool)
      ensures stalled <==> source.FromPeer? && exists t | t in txids :: t in source.txs && !Fits(cfg, source.txs[t])
    {
      hide Fits;
      stalled := false;
      if source.FromCaller? {
        return;
      }
      for n := 0 to |txids|
        invariant !stalled && forall t | t in txids[..n] :: t in source.txs ==> Fits(cfg, source.txs[t])
      {
        assert txids[..n + 1] == txids[..n] + [txids[n]];
        if txids[n] in source.txs && !Fits(cfg, source.txs[txids[n]]) {
          return true;
        }
      }
      assert txids[..|txids|] == txids;
    }

    /** The fetch loop: record each fetched transaction and mark its partition. */
    method FetchTxs(lackTxids: seq<Txid>, source: map<Txid, MsgTx>, mapi: Txid -> TxStatus)
      returns (msgTxs: seq<MsgTx>, errTxs: seq<Txid>)
      requires forall t | t in lackTxids :: t !in infos && mapi(t).Success?
      requires forall t | t in source :: source[t].txid == t
      modifies this`infos, this`dirty
      ensures Fetched(cfg, old(infos), infos, lackTxids, source, mapi, msgTxs, dirty)
      ensures MarksOnly(cfg, old(infos), mapi, lackTxids, old(dirty), dirty)
      ensures (forall t :: t in errTxs <==> t in lackTxids && t !in source) && |msgTxs| + |errTxs| == |lackTxids|
    {
      hide FetchedUpTo, MarksOnly, AddInfo, MarkOf;
      msgTxs, errTxs := [], [];
      FetchBegins(cfg, infos, lackTxids, source, mapi, dirty);
      for n := 0 to |lackTxids|
        invariant FetchedUpTo(cfg, old(infos), infos, lackTxids, n, source, mapi, msgTxs, dirty)
        invariant MarksOnly(cfg, old(infos), mapi, lackTxids, old(dirty), dirty)
        invariant (forall t :: t in errTxs <==> t in lackTxids[..n] && t !in source) && |msgTxs| + |errTxs| == n
      {
        var t := lackTxids[n];
        assert lackTxids[..n + 1] == lackTxids[..n] + [t];
        FetchNext(cfg, old(infos), infos, lackTxids, n, source, mapi, msgTxs, old(dirty), dirty);
        if t in source {
          var tx := source[t];
          infos := AddInfo(infos, tx, RecordedHeight(mapi(t)));
          AddNeedRecomputehashPartitionByHeight(mapi(t).blockHeight);
          msgTxs := msgTxs + [tx];
        } else {
          errTxs := errTxs + [t];
        }
      }
      FetchEnds(cfg, old(infos), infos, lackTxids, source, mapi, msgTxs, dirty);
      assert lackTxids[..|lackTxids|] == lackTxids;
    }

    /**
     * SyncTxs: look each transaction up, fetch what is missing, record it, and process everything not yet
     * closed in one pass. `source` is what the asked peer holds, or what the caller hands over; `c` is the chain
     * they live on. The call never returns (`stalled`) exactly when this node or the peer has to read a transaction
     * that is too long to be read back.
     */
    method SyncTxs(ghost c: Chain, txids: seq<Txid>, source: TxSource, mapi: Txid -> TxStatus, ts: int)
      returns (alreadyClosedTxs: seq<Txid>, inventories: seq<TxInventory>, errTxs: seq<Txid>, stalled: bool)
      requires cfg.startHeight >= 0 && LedgerOk(c, Db()) && FromChain(c, source.txs)
      modifies this`points, this`infos, this`dirty
      ensures stalled <==> exists t | t in txids :: Unreadable(cfg, old(infos), source, mapi, t)
      ensures LedgerOk(c, Db())
      ensures Synced(c, cfg, old(infos), infos, txids, mapi, dirty)
      ensures MarksOnly(cfg, old(infos), mapi, txids, old(dirty), dirty) && Keeps(c, cfg, old(State()), State())
      ensures !stalled ==> forall t :: t in alreadyClosedTxs <==> t in txids && ClosedTx(old(infos), t)
      ensures !stalled ==> forall t | t in txids :: t in errTxs <==> !ClosedTx(infos, t)
      ensures !stalled ==> |alreadyClosedTxs| + |inventories| + |errTxs| == |txids|
      ensures forall t | t in infos && t !in old(infos) ::
                mapi(t).Success? && infos[t].height == if mapi(t).blockHash == "" then -1 else mapi(t).blockHeight
      ensures !stalled ==> forall t | t in c.txs && ClosedTx(infos, t) && !ClosedTx(old(infos), t) ::
              Meaning(c, t, ts) in inventories
      ensures !stalled ==> forall inv | inv in inventories :: IsMeaningOf(c, txids, ts, inv)
      ensures Fetchable(c, cfg, old(infos), txids, source, mapi) ==>
                !stalled && errTxs == [] && forall t | t in txids :: ClosedTx(infos, t)
    {
      hide Keeps, Tidy, Obtainable, IsMeaningOf, Meaning, InventoriesIn, OutcomesOf, LedgerOk, Collected, Fetched,
        MarksOnly, Synced, Fetchable, ProcessAll, Supplied, SameBatch, FromChain, Keyed, Acyclic, Mentions, Unreadable,
        Fits;
      ghost var l, s := Db(), State();
      KeyedLedger(c, l);
      if Fetchable(c, cfg, l.infos, txids, source, mapi) {
        FetchableIsReadable(c, cfg, l.infos, txids, source, mapi);
      }
      StalledIsSynced(c, cfg, l.infos, txids, mapi, dirty);
      UnreadableHere(cfg, l.infos, source, mapi);
      var lackTxids, open, closed, errs, unread := CollectTxs(txids, mapi);
      ghost var dirty1 := dirty;
      StalledIsSynced(c, cfg, l.infos, txids, mapi, dirty1);
      MarksGrow(cfg, l.infos, mapi, txids, old(dirty), dirty1);
      SyncedKeeps(c, cfg, s, State(), txids, mapi);
      if unread {
        return [], [], [], true;
      }
      StallsExactly(cfg, l.infos, txids, source, mapi, lackTxids, open, dirty1);
      LackIsFetched(c, cfg, l.infos, txids, source.txs, mapi, lackTxids, open, dirty1);
      var unanswered := GetTxsStalls(lackTxids, source);
      if unanswered {
        return [], [], [], true;
      }
      var processed, lost, failed := FetchAndProcess(c, txids, lackTxids, open, errs, source.txs, mapi, ts);
      MarksOnlyTrans(cfg, l.infos, mapi, txids, lackTxids, old(dirty), dirty1, dirty);
      MarksGrow(cfg, l.infos, mapi, txids, old(dirty), dirty);
      SyncedKeeps(c, cfg, s, State(), txids, mapi);
      SyncedHeights(c, cfg, l.infos, infos, txids, mapi, dirty);
      return closed, processed, errs + lost + failed, false;
    }

    /** The rest of SyncTxs: record what the source answered and process it with what was still open. */
    method FetchAndProcess(ghost c: Chain, ghost txids: seq<Txid>, lackTxids: seq<Txid>, open: seq<MsgTx>,
      ghost errs: seq<Txid>, source: map<Txid, MsgTx>, mapi: Txid -> TxStatus, ts: int)
      returns (inventories: seq<TxInventory>, lost: seq<Txid>, failed: seq<Txid>)
      requires cfg.startHeight >= 0 && LedgerOk(c, Db()) && FromChain(c, source)
      requires Collected(cfg, infos, txids, mapi, lackTxids, open, dirty)
      requires forall t :: t in errs <==> t in txids && t !in infos && mapi(t).Failure?
      modifies this`points, this`infos, this`dirty
      ensures LedgerOk(c, Db()) && (old(Tidy(c, Db())) ==> Tidy(c, Db()))
      ensures Synced(c, cfg, old(infos), infos, txids, mapi, dirty)
      ensures MarksOnly(cfg, old(infos), mapi, lackTxids, old(dirty), dirty)
      ensures forall t | t in txids :: t in errs + lost + failed <==> !ClosedTx(infos, t)
      ensures |inventories| + |lost| + |failed| == |lackTxids| + |open|
      ensures forall t | t in c.txs && ClosedTx(infos, t) && !ClosedTx(old(infos), t) ::
              Meaning(c, t, ts) in inventories
      ensures forall inv | inv in inventories :: IsMeaningOf(c, txids, ts, inv)
      ensures Obtainable(c, old(infos), txids, source, mapi) ==>
                errs == [] && lost == [] && failed == [] && forall t | t in txids :: ClosedTx(infos, t)
    {
      hide IsMeaningOf, Meaning, InventoriesIn, OutcomesOf, LedgerOk, Collected, Fetched, MarksOnly, Synced,
        Obtainable, Tidy, ProcessAll, Supplied, SameBatch, FromChain, Acyclic, Mentions;
      ghost var l, dirty1 := Db(), dirty;
      LackIsFetched(c, cfg, l.infos, txids, source, mapi, lackTxids, open, dirty1);
      var msgTxs;
      msgTxs, lost := FetchTxs(lackTxids, source, mapi);
      ghost var infos', dirty' := infos, dirty;
      MarksGrow(cfg, l.infos, mapi, lackTxids, dirty1, dirty');
      FetchKeepsLedger(c, cfg, l, infos', lackTxids, source, mapi, msgTxs, dirty');
      var batch := open + msgTxs;
      var needProcessTx := new MsgTx[|batch|](i requires 0 <= i < |batch| => batch[i]);
      assert needProcessTx[..] == batch;
      inventories, failed := ProcessMsgTxs(needProcessTx, ts);
      ghost var sorted := needProcessTx[..];
      SyncEffect(c, cfg, l, infos', txids, lackTxids, open, source, mapi, msgTxs, dirty1, dirty', sorted, ts);
      SyncKeeps(c, cfg, l, infos', txids, lackTxids, open, source, mapi, msgTxs, dirty1, dirty', sorted, ts);
      if Tidy(c, l) {
        SyncTidy(c, cfg, l, infos', txids, lackTxids, open, source, mapi, msgTxs, dirty1, dirty', sorted, ts);
      }
      SyncReports(c, cfg, l, infos', txids, lackTxids, open, source, mapi, msgTxs, dirty1, dirty', sorted, ts);
      SyncErrors(c, cfg, l, infos', txids, lackTxids, open, source, mapi, msgTxs, dirty1, dirty', sorted, ts, errs,
        lost);
      if Obtainable(c, l.infos, txids, source, mapi) {
        BatchIsSupplied(c, cfg, l, infos', txids, lackTxids, open, source, mapi, msgTxs, dirty1, dirty');
        SyncClosesAll(c, l.(infos := infos'), batch, sorted, txids, ts);
        NothingMissing(c, cfg, l.infos, txids, source, mapi, lackTxids, open, dirty1, errs, lost);
      }
    }

    // ----- SyncPatitions

    /** GetPartitionInfos: a page of a partition table in id order. */
    static method GetPartitionInfos(table: Table, offset: nat) returns (page: seq<(int, Digest)>)
      ensures IsPage(page, table, offset) && |page| <= 10 && (|page| == 10 || |page| == 0 || offset + |page| == |table|)
    {
      hide Listed, StrictTotal, Ascending;
      IntLessTotal();
      var ids := SortedList(table.Keys, IntLess);
      EnumerationLength(ids, table.Keys);
      page := [];
      var i := offset;
      while i < |ids| && i < offset + COMPARE_PARTITIONS_COUNT
        invariant offset <= i <= offset + COMPARE_PARTITIONS_COUNT && (i <= |ids| || i == offset)
                  && |page| == i - offset
        invariant forall k | 0 <= k < |page| ::
                  page[k].0 == ids[offset + k] && page[k].0 in table && page[k].1 == table[page[k].0]
      {
        assert ids[i] in ids;
        page := page + [(ids[i], table[ids[i]])];
        i := i + 1;
      }
    }

    /** The comparison loop: positions of the two pages are compared, not partition ids. */
    method CompareDigests(ghost n: nat, offset: nat, peer: Peer) returns (ids: seq<int>)
      ensures exists ours, theirs | IsPage(ours, partitions, offset) && IsPage(theirs, peer.table, offset) ::
                ids == DiffIds(ours, theirs, if |ours| <= |theirs| then |ours| else |theirs|)
      ensures Contiguous(partitions, n) && Contiguous(peer.table, |peer.table|) ==>
                forall q :: q in ids <==> Differs(partitions, peer, offset, q)
    {
      hide IsPage, Differs;
      var ours := GetPartitionInfos(partitions, offset);
      var theirs := GetPartitionInfos(peer.table, offset);
      ids := [];
      var index := 0;
      while index < |ours| && index < |theirs|
        invariant 0 <= index <= |ours| && index <= |theirs| && ids == DiffIds(ours, theirs, index)
      {
        if ours[index].1 != theirs[index].1 {
          ids := ids + [ours[index].0];
        }
        index := index + 1;
      }
      hide DiffIds;
      assert index == if |ours| <= |theirs| then |ours| else |theirs|;
      if Contiguous(partitions, n) && Contiguous(peer.table, |peer.table|) {
        ComparisonIsExact(ours, theirs, partitions, n, peer, offset);
      }
    }

    /** GetPartitionsTxids: the peer's closed transactions of some partitions, each once. */
    method GetPartitionsTxids(peer: Peer, ids: seq<int>) returns (txids: seq<Txid>)
      ensures forall t :: t in txids <==> t in ClosedOf(cfg, peer.infos, ids)
      ensures forall i, j | 0 <= i < j < |txids| :: txids[i] != txids[j]
    {
      hide Listed, StrictTotal, Ascending, ClosedIn;
      StringLessTotal();
      txids := [];
      for k := 0 to |ids|
        invariant forall t :: t in txids <==> t in ClosedOf(cfg, peer.infos, ids[..k])
        invariant forall i, j | 0 <= i < j < |txids| :: txids[i] != txids[j]
      {
        assert ids[..k + 1][..k] == ids[..k];
        var found := SortedList(ClosedIn(cfg, peer.infos, ids[k]), StringLess);
        txids := AppendNew(txids, found);
      }
      assert ids[..|ids|] == ids;
    }

    static method AppendNew(txids: seq<Txid>, found: seq<Txid>) returns (r: seq<Txid>)
      requires forall i, j | 0 <= i < j < |txids| :: txids[i] != txids[j]
      ensures forall t :: t in r <==> t in txids || t in found
      ensures forall i, j | 0 <= i < j < |r| :: r[i] != r[j]
    {
      r := txids;
      for m := 0 to |found|
        invariant forall t :: t in r <==> t in txids || t in found[..m]
        invariant forall i, j | 0 <= i < j < |r| :: r[i] != r[j]
      {
        assert found[..m + 1] == found[..m] + [found[m]];
        if found[m] !in r {
          r := r + [found[m]];
        }
      }
      assert found[..|found|] == found;
    }

    /** One peer at one page: compare digests, pull what differs, recompute. */
    method SyncPage(ghost c: Chain, ghost height: Txid -> int, ghost n: nat, offset: nat, peer: Peer,
      mapi: Txid -> TxStatus, ts: int) returns (stalled: bool)
      requires cfg.startHeight >= 0 && LedgerOk(c, Db()) && FromChain(c, TableOf(peer))
      requires dirty == {}
      modifies this
      ensures LedgerOk(c, Db()) && Keeps(c, cfg, old(State()), State()) && old(partitions).Keys <= partitions.Keys
      ensures !stalled ==> dirty == {}
      ensures PageReady(c, cfg, height, mapi, old(infos), old(partitions), n, peer, offset) ==>
                !stalled && PagePulled(c, cfg, height, old(infos), infos, n, peer, offset)
                  && TableCurrent(cfg, infos, partitions, n)
    {
      hide LedgerOk, PagePulled, PageReady, Synced, Keeps, Fetchable, FromChain, MarksOnly, AsksFor, TableCurrent,
        Recomputed, Unreadable, Differs, Contiguous, ClosedOf, Meaning, IsMeaningOf, IsPage, DiffIds;
      ghost var infos0, table0, s := infos, partitions, State();
      KeepsSame(c, cfg, s);
      ghost var ready := PageReady(c, cfg, height, mapi, infos0, table0, n, peer, offset);
      if ready {
        PageReadyTable(c, cfg, height, mapi, infos, partitions, n, peer, offset);
      }
      var ids := CompareDigests(n, offset, peer);
      if ids == [] {
        if ready {
          EqualPage(c, cfg, height, mapi, infos, partitions, n, peer, offset);
        }
        return false;
      }
      var txids := GetPartitionsTxids(peer, ids);
      if ready {
        PageReadyAsks(c, cfg, height, mapi, infos0, table0, n, peer, offset, ids, txids);
        PageIsFetchable(c, cfg, height, mapi, infos0, table0, n, peer, offset, txids);
      }
      var _, _, _, unread := SyncTxs(c, txids, SourceOf(peer), mapi, ts);
      ghost var marks, s' := dirty, State();
      if unread {
        return true;
      }
      ClearCacheAndSetHash();
      KeepsClear(c, cfg, s', partitions);
      KeepsTrans(c, cfg, s, s', State());
      RecomputedKeys(cfg, infos, table0, marks, partitions);
      if ready {
        PageEnds(c, cfg, height, mapi, infos0, infos, table0, partitions, n, peer, offset, txids, marks);
      }
      stalled := false;
    }

    /** All peers at one page, after the marked partitions have been recomputed. */
    method SyncPageFromPeers(ghost c: Chain, ghost height: Txid -> int, ghost n: nat, offset: nat, peers: seq<Peer>,
      mapi: Txid -> TxStatus, ts: int, ghost before: Infos, ghost ids: set<int>) returns (stalled: bool)
      requires cfg.startHeight >= 0 && LedgerOk(c, Db()) && forall peer | peer in peers :: FromChain(c, TableOf(peer))
      modifies this
      ensures LedgerOk(c, Db()) && Keeps(c, cfg, old(State()), State())
      ensures old(partitions).Keys + (old(dirty) - {-1}) <= partitions.Keys
      ensures !stalled ==> dirty == {}
      ensures old(Tracked(cfg, infos, partitions, dirty))
              && PagesReady(c, cfg, height, mapi, before, ids, old(infos), old(partitions).Keys + old(dirty), n, peers,
                offset) ==>
                !stalled && PagesPulled(c, cfg, height, before, ids, infos, partitions, n, peers, offset)
    {
      hide LedgerOk, PageReady, PagePulled, Progress, TableCurrent, Tracked, Keeps, PagesReady, PagesPulled, PassReady,
        Recomputed, FromChain;
      ghost var table0, dirty0, s := partitions, dirty, State();
      ghost var ready := Tracked(cfg, infos, table0, dirty0)
        && PagesReady(c, cfg, height, mapi, before, ids, infos, table0.Keys + dirty0, n, peers, offset);
      ClearCacheAndSetHash();
      KeepsClear(c, cfg, s, partitions);
      RecomputedKeys(cfg, infos, table0, dirty0, partitions);
      if ready {
        PagesBegin(c, cfg, height, mapi, before, ids, infos, table0, dirty0, partitions, n, peers, offset);
      }
      for j := 0 to |peers|
        invariant LedgerOk(c, Db()) && dirty == {} && Keeps(c, cfg, s, State())
        invariant table0.Keys + (dirty0 - {-1}) <= partitions.Keys
        invariant ready ==> AtPeer(c, cfg, height, mapi, before, ids, infos, partitions, n, peers, j, offset)
      {
        hide AtPeer;
        ghost var infos1, s1 := infos, State();
        if ready {
          AtPeerReady(c, cfg, height, mapi, before, ids, infos, partitions, n, peers, j, offset);
        }
        stalled := SyncPage(c, height, n, offset, peers[j], mapi, ts);
        KeepsTrans(c, cfg, s, s1, State());
        if stalled {
          return;
        }
        if ready {
          AtNextPeer(c, cfg, height, mapi, before, ids, infos1, infos, partitions, n, peers, j, offset);
        }
      }
      stalled := false;
      if ready {
        AllPeersPulled(c, cfg, height, mapi, before, ids, infos, partitions, n, peers, offset);
      }
    }

    /**
     * SyncPatitions: page by page from `start`, recompute marked partitions and pull from every peer. A
     * partition that is marked when stale stays so; after at least one page it is not stale. A pass from 0 over
     * a whole tracked table leaves every peer's closed transactions closed here, in every partition both sides hold.
     */
    method SyncPatitions(ghost c: Chain, ghost height: Txid -> int, ghost n: nat, start: nat, end: int,
      peers: seq<Peer>, mapi: Txid -> TxStatus, ts: int)
      returns (stalled: bool)
      requires cfg.startHeight >= 0 && LedgerOk(c, Db()) && forall peer | peer in peers :: FromChain(c, TableOf(peer))
      modifies this
      ensures LedgerOk(c, Db()) && Keeps(c, cfg, old(State()), State()) && old(partitions).Keys <= partitions.Keys
      ensures !stalled && start <= end ==> dirty == {} && old(dirty) - {-1} <= partitions.Keys
      ensures start == 0 && n <= end && old(Tracked(cfg, infos, partitions, dirty))
              && PassReady(c, cfg, height, mapi, old(infos), old(partitions).Keys + old(dirty), n, peers) ==>
                !stalled && Progress(c, cfg, height, old(infos), infos, peers, 0, n, n)
                  && TableCurrent(cfg, infos, partitions, n)
    {
      hide LedgerOk, PageReady, Progress, TableCurrent, Tracked, Keeps, PassReady, PagesReady, PagesPulled, FromChain;
      ghost var before, ids, s := infos, partitions.Keys + dirty, State();
      KeepsSame(c, cfg, s);
      ghost var ready := start == 0 && n <= end && Tracked(cfg, infos, partitions, dirty)
        && PassReady(c, cfg, height, mapi, before, ids, n, peers);
      var offset: nat := start;
      if ready {
        PassStarts(c, cfg, height, mapi, before, ids, n, peers);
      }
      while offset <= end
        invariant offset >= start && LedgerOk(c, Db()) && Keeps(c, cfg, s, State())
        invariant old(partitions).Keys <= partitions.Keys
        invariant offset == start ==> partitions == old(partitions) && dirty == old(dirty)
        invariant offset > start ==> dirty == {} && old(dirty) - {-1} <= partitions.Keys
        invariant ready ==> Tracked(cfg, infos, partitions, dirty)
        invariant ready ==>
                    PagesReady(c, cfg, height, mapi, before, ids, infos, partitions.Keys + dirty, n, peers, offset)
        invariant ready && offset > start ==> TableCurrent(cfg, infos, partitions, n)
        decreases end - offset
      {
        ghost var s1 := State();
        stalled := SyncPageFromPeers(c, height, n, offset, peers, mapi, ts, before, ids);
        KeepsTrans(c, cfg, s, s1, State());
        if stalled {
          return;
        }
        if ready {
          KeepsTracked(c, cfg, s1, State());
          PassContinues(c, cfg, height, mapi, before, ids, infos, partitions, n, peers, offset);
        }
        offset := offset + COMPARE_PARTITIONS_COUNT;
      }
      stalled := false;
      if ready {
        PassEnds(c, cfg, height, mapi, before, ids, infos, partitions.Keys + dirty, n, peers, offset);
      }
    }

    /** SyncUnconfirmTx for one peer. */
    method SyncUnconfirmFrom(ghost c: Chain, ghost height: Txid -> int, ghost n: int, peer: Peer,
      mapi: Txid -> TxStatus, ts: int) returns (stalled: bool)
      requires cfg.startHeight >= 0 && LedgerOk(c, Db()) && FromChain(c, TableOf(peer))
      modifies this`points, this`infos, this`dirty
      ensures LedgerOk(c, Db()) && Keeps(c, cfg, old(State()), State())
      ensures old(dirty) <= dirty && ClosedGrow(old(infos), infos)
      ensures Offers(c, cfg, old(infos), peer, mapi) ==> !stalled && Has(infos, Unconfirmed(peer.infos))
      ensures Legible(cfg, peer.infos) ==> !stalled
      ensures Placed(c, cfg, height, mapi, old(infos), old(dirty), n) ==> Placed(c, cfg, height, mapi, infos, dirty, n)
    {
      hide LedgerOk, Keeps, Listed, StrictTotal, Synced, MarksOnly, Offers, Placed, Fetchable, Unconfirmed, FromChain,
        Legible, Unreadable, Meaning, IsMeaningOf;
      StringLessTotal();
      var txids := SortedList(Unconfirmed(peer.infos), StringLess);
      ghost var infos0, dirty0 := infos, dirty;
      if Offers(c, cfg, infos, peer, mapi) {
        OfferIsFetchable(c, cfg, Db(), peer, mapi, txids);
      }
      if Legible(cfg, peer.infos) {
        UnconfirmedIsClosed(peer.infos);
        LegibleNeverStalls(c, cfg, Db(), peer, mapi, txids);
      }
      var _, _, _, unread := SyncTxs(c, txids, SourceOf(peer), mapi, ts);
      MarksGrow(cfg, infos0, mapi, txids, dirty0, dirty);
      SyncedGrows(c, cfg, infos0, infos, txids, mapi, dirty);
      if Placed(c, cfg, height, mapi, infos0, dirty0, n) {
        SyncedPlaced(c, cfg, height, mapi, infos0, infos, txids, dirty0, dirty, n);
      }
      stalled := unread;
    }

    /**
     * SyncUnconfirmTx: pull what each peer has closed at heights -1 and 0. Everything a peer offers with its
     * badge parents ends closed here.
     */
    method SyncUnconfirmTx(ghost c: Chain, ghost height: Txid -> int, ghost n: int, peers: seq<Peer>,
      mapi: Txid -> TxStatus, ts: int) returns (stalled: bool)
      requires cfg.startHeight >= 0 && LedgerOk(c, Db()) && forall peer | peer in peers :: FromChain(c, TableOf(peer))
      modifies this`points, this`infos, this`dirty
      ensures LedgerOk(c, Db()) && Keeps(c, cfg, old(State()), State())
      ensures old(dirty) <= dirty && ClosedGrow(old(infos), infos)
      ensures !stalled ==> forall peer | peer in peers && Offers(c, cfg, old(infos), peer, mapi) ::
              Has(infos, Unconfirmed(peer.infos))
      ensures (forall peer | peer in peers :: Legible(cfg, peer.infos)) ==> !stalled
      ensures Placed(c, cfg, height, mapi, old(infos), old(dirty), n) ==> Placed(c, cfg, height, mapi, infos, dirty, n)
    {
      hide LedgerOk, Keeps, Offers, Placed, Unconfirmed, FromChain, Legible, ClosedGrow, Has;
      ghost var before, s := infos, State();
      KeepsSame(c, cfg, s);
      SameGrow(infos);
      for j := 0 to |peers|
        invariant LedgerOk(c, Db()) && Keeps(c, cfg, s, State()) && old(dirty) <= dirty && ClosedGrow(before, infos)
        invariant forall i | 0 <= i < j && Offers(c, cfg, before, peers[i], mapi) ::
                  Has(infos, Unconfirmed(peers[i].infos))
        invariant Placed(c, cfg, height, mapi, before, old(dirty), n) ==> Placed(c, cfg, height, mapi, infos, dirty, n)
      {
        assert peers[j] in peers;
        ghost var infos0, s1 := infos, State();
        if Offers(c, cfg, before, peers[j], mapi) {
          OffersGrow(c, cfg, before, infos, peers[j], mapi);
        }
        stalled := SyncUnconfirmFrom(c, height, n, peers[j], mapi, ts);
        KeepsTrans(c, cfg, s, s1, State());
        GrowTrans(before, infos0, infos);
        if stalled {
          return;
        }
        forall i | 0 <= i < j && Offers(c, cfg, before, peers[i], mapi)
          ensures Has(infos, Unconfirmed(peers[i].infos))
        {
          HasGrows(infos0, infos, Unconfirmed(peers[i].infos));
        }
      }
      stalled := false;
    }

    /**
     * SyncState: after it, every partition the current height calls for (from 0 when syncing all, else
     * from the last one stored) is in the table with a current digest, however stale and unmarked it was before.
     * Syncing all catches up with every peer, in every partition both sides hold.
     */
    method SyncState(ghost c: Chain, ghost height: Txid -> int, peers: seq<Peer>, mapi: Txid -> TxStatus,
      currentHeight: int, syncAll: bool, ts: int) returns (stalled: bool)
      requires cfg.startHeight >= 0 && LedgerOk(c, Db()) && forall peer | peer in peers :: FromChain(c, TableOf(peer))
      modifies this
      ensures LedgerOk(c, Db()) && Keeps(c, cfg, old(State()), State())
      ensures !stalled ==>
                forall peer, t | peer in peers && Offers(c, cfg, old(infos), peer, mapi) && ClosedTx(peer.infos, t)
                  && -1 <= peer.infos[t].height <= 0 :: ClosedTx(infos, t)
      ensures !stalled ==> forall id | 0 <= id < ExpectedPartitions(cfg, currentHeight)
              && (syncAll || |old(partitions)| - 1 <= id) ::
                Fresh(cfg, infos, partitions, id)
      ensures var n := ExpectedPartitions(cfg, currentHeight);
              syncAll && n >= 0 && StateReady(c, cfg, height, mapi, old(infos), old(partitions).Keys + old(dirty), n,
                peers) ==>
                !stalled && TableCurrent(cfg, infos, partitions, n)
                  && forall peer | peer in peers :: CaughtUp(cfg, infos, peer, n)
    {
      hide LedgerOk, Tracked, TrackedAt, Keeps, Fresh, Placed, StateReady, TableCurrent, CaughtUp, PassReady, Progress,
        Offers, Has, FromChain, Legible, ExpectedPartitions;
      ghost var s := State();
      var count := |partitions|;
      var expected := ExpectedPartitions(cfg, currentHeight);
      ghost var infos0, ids0 := infos, partitions.Keys + dirty;
      ghost var ready := syncAll && expected >= 0 && StateReady(c, cfg, height, mapi, infos, ids0, expected, peers);
      if ready {
        ReadyIsPlaced(c, cfg, height, mapi, infos, partitions.Keys, dirty, expected, peers);
      }
      stalled := SyncUnconfirmTx(c, height, expected, peers, mapi, ts);
      if stalled {
        return;
      }
      var start := count - RE_COMPUTE_PARTITION_COUNT;
      if start < 0 || syncAll {
        start := 0;
      }
      ghost var s1 := State();
      stalled := MarkAndSync(c, height, start, expected, peers, mapi, ts, infos0, ids0);
      KeepsTrans(c, cfg, s, s1, State());
      KeepsClosed(c, cfg, s1, State());
      forall peer, t | peer in peers && Offers(c, cfg, infos0, peer, mapi) && ClosedTx(peer.infos, t)
        && -1 <= peer.infos[t].height <= 0
        ensures ClosedTx(infos, t)
      {
        HasUnconfirmed(s1.ledger.infos, infos, peer, t);
      }
    }

    /** The second half of SyncState: mark the partitions from `start` on and run a pass over them. */
    method MarkAndSync(ghost c: Chain, ghost height: Txid -> int, start: nat, expected: int, peers: seq<Peer>,
      mapi: Txid -> TxStatus, ts: int, ghost infos0: Infos, ghost ids0: set<int>) returns (stalled: bool)
      requires cfg.startHeight >= 0 && LedgerOk(c, Db()) && forall peer | peer in peers :: FromChain(c, TableOf(peer))
      modifies this
      ensures LedgerOk(c, Db()) && Keeps(c, cfg, old(State()), State())
      ensures !stalled ==> forall id | start <= id < expected :: Fresh(cfg, infos, partitions, id)
      ensures && start == 0 <= expected && StateReady(c, cfg, height, mapi, infos0, ids0, expected, peers)
              && Placed(c, cfg, height, mapi, old(infos), old(dirty), expected) && old(partitions).Keys <= ids0 ==>
                !stalled && TableCurrent(cfg, infos, partitions, expected)
                  && forall peer | peer in peers :: CaughtUp(cfg, infos, peer, expected)
    {
      hide LedgerOk, Tracked, TrackedAt, Keeps, Fresh, Placed, StateReady, TableCurrent, CaughtUp, PassReady, Progress,
        FromChain;
      ghost var ready := && start == 0 <= expected && StateReady(c, cfg, height, mapi, infos0, ids0, expected, peers)
        && Placed(c, cfg, height, mapi, infos, dirty, expected) && partitions.Keys <= ids0;
      ghost var dirty1, s := dirty, State();
      MarkPartitions(start, expected);
      ghost var s1 := State();
      KeepsMarks(c, cfg, s, dirty);
      ghost var infos1, marked, n := infos, dirty, if expected >= 0 then expected else 0;
      if ready {
        MarkedIsReady(c, cfg, height, mapi, infos0, ids0, infos, partitions.Keys, dirty1, dirty, n, peers);
        ReadyIsTracked(c, cfg, height, mapi, infos0, ids0, infos, partitions, dirty, n, peers);
      }
      stalled := SyncPatitions(c, height, n, start, expected, peers, mapi, ts);
      KeepsTrans(c, cfg, s, s1, State());
      if stalled {
        return;
      }
      if ready {
        ProgressCatchesUp(c, cfg, height, infos1, infos, peers, n);
      }
      forall id | start <= id < expected ensures Fresh(cfg, infos, partitions, id) {
        assert id in marked - {-1};
        MarkedIsFresh(c, cfg, s1, State(), id);
      }
    }

    /** The marking loop of SyncState. */
    method MarkPartitions(start: nat, expected: int)
      modifies this`dirty
      ensures old(dirty) <= dirty && forall id :: id in dirty <==> id in old(dirty) || start <= id < expected
    {
      var i := start;
      while i < expected
        invariant start <= i && old(dirty) <= dirty
        invariant forall id :: id in dirty <==> id in old(dirty) || (start <= id < i && id < expected)
      {
        AddNeedRecomputehashPartition(i);
        i := i + 1;
      }
    }

    // ----- SetSpent

    method SetTxPointState(k: Key) returns (ok: bool)
      modifies this`points
      ensures points == MarkSpent(old(points), k) && ok == (k in old(points))
    {
      ok := k in points;
      if ok {
        points := points[k := points[k].(state := PrettySureSpent)];
      }
    }

    /**
     * SetSpent: mark every old enough vin row that lies deep enough, its vout first. It never fails on a
     * ledger whose rows all belong to recorded transactions, and it changes nothing but marks.
     */
    method SetSpent(ghost c: Chain, currentHeight: int, now: int) returns (ok: bool)
      requires LedgerOk(c, Db())
      modifies this`points
      ensures LedgerOk(c, Db()) && SameRows(old(points), points) && Grows(old(points), points)
      ensures old(Tidy(c, Db())) ==> Tidy(c, Db())
      ensures forall k | k in points && Marked(points, k) ::
              Marked(old(points), k) || Prunes(old(points), infos, currentHeight, now, k)
      ensures (forall k | k in points :: k.txid in infos) ==> ok
      ensures ok ==> forall k | k in points && Prunes(old(points), infos, currentHeight, now, k) :: Marked(points, k)
    {
      hide LedgerOk, PruneProgress, Tidy;
      var rows := points;
      var todo := set k | k in points && IsCandidate(points, now, k);
      PruneBegins(rows, infos, currentHeight, now);
      while todo != {}
        invariant todo <= rows.Keys && LedgerOk(c, Db()) && SameRows(rows, points) && Grows(rows, points)
        invariant PruneProgress(rows, points, infos, currentHeight, now, todo)
        decreases todo
      {
        ghost var some := SomeMember(todo);
        var k :| k in todo;
        if k.txid !in infos {
          PruneStops(rows, points, infos, currentHeight, now, todo, k);
          RowsTidy(c, rows, Db());
          return false;
        }
        if infos[k.txid].height == -1 || currentHeight - infos[k.txid].height <= 20 {
          PruneSkips(rows, points, infos, currentHeight, now, todo, k);
          todo := todo - {k};
          continue;
        }
        PruneMarks(rows, points, infos, currentHeight, now, todo, k);
        PruneOne(c, Db(), rows, k);
        // both rows are stored, so neither update fails
        var _ := SetTxPointState(SpentKey(rows[k]));
        var _ := SetTxPointState(k);
        todo := todo - {k};
      }
      PruneEnds(rows, points, infos, currentHeight, now);
      RowsTidy(c, rows, Db());
      ok := true;
    }
  }

  /** A node as its peers see it when its answers are frozen. */
  ghost predicate NodeOk(c: Chain, height: Txid -> int, s: TouchstoneServer, n: nat)
    reads s
  {
    && LedgerOk(c, s.Db()) && Records(c, height, s.infos) && ParentClosed(c, s.infos) && Legible(s.cfg, s.infos)
    && TableCurrent(s.cfg, s.infos, s.partitions, n) && s.dirty == {}
  }

  /**
   * Two nodes pull from each other, one after the other: `a` runs a pass against `b`, then `b` against the
   * new `a`. Every partition both hold ends with the union of their closed sets on both sides, under equal digests,
   * and both nodes hold the same rows, up to timestamp and mark, for every closed transaction in it.
   */
  method PullFromEachOther(ghost c: Chain, ghost height: Txid -> int, a: TouchstoneServer, b: TouchstoneServer,
    ghost n: nat, ghost m: nat, endA: int, endB: int, mapi: Txid -> TxStatus, ts: int)
    requires a != b && a.cfg == b.cfg && Agreed(c, a.cfg, height, mapi)
    requires NodeOk(c, height, a, n) && NodeOk(c, height, b, m) && n <= endA && m <= endB
    modifies a, b
    ensures NodeOk(c, height, a, n) && NodeOk(c, height, b, m)
    ensures forall q | 0 <= q < n && q < m ::
              && ClosedIn(a.cfg, a.infos, q) == ClosedIn(a.cfg, b.infos, q)
                 == ClosedIn(a.cfg, old(a.infos), q) + ClosedIn(a.cfg, old(b.infos), q)
              && a.partitions[q] == b.partitions[q]
    ensures forall q, k: Key | 0 <= q < n && q < m && k.txid in ClosedIn(a.cfg, a.infos, q) ::
            SameAt(a.points, b.points, k)
  {
    hide LedgerOk, Records, ParentClosed, Agreed, ClosedIn, TableCurrent, Legible;
    ghost var b0 := Peer(b.infos, b.partitions);
    ghost var a0 := Peer(a.infos, a.partitions);
    PullOnce(c, height, a, Peer(b.infos, b.partitions), n, m, endA, mapi, ts);
    ghost var a1 := Peer(a.infos, a.partitions);
    PullOnce(c, height, b, Peer(a.infos, a.partitions), m, n, endB, mapi, ts);
    CurrentIsContiguous(a.cfg, b0.infos, b0.table, m);
    PullEachWay(c, a.cfg, height, a0, b0, a1, Peer(b.infos, b.partitions), n, m);
    forall q, k: Key | 0 <= q < n && q < m && k.txid in ClosedIn(a.cfg, a.infos, q)
      ensures SameAt(a.points, b.points, k)
    {
      InPartition(a.cfg, a.infos, q, k.txid);
      InPartition(a.cfg, b.infos, q, k.txid);
      ClosedAgree(c, a.Db(), b.Db(), k);
    }
  }

  /** One error-free pass against one peer, as a pull from it. */
  method PullOnce(ghost c: Chain, ghost height: Txid -> int, s: TouchstoneServer, peer: Peer, ghost n: nat,
    ghost m: nat, end: int, mapi: Txid -> TxStatus, ts: int)
    requires Agreed(c, s.cfg, height, mapi) && NodeOk(c, height, s, n) && n <= end
    requires Records(c, height, peer.infos) && ParentClosed(c, peer.infos) && Legible(s.cfg, peer.infos)
    requires TableCurrent(s.cfg, peer.infos, peer.table, m)
    modifies s
    ensures NodeOk(c, height, s, n)
    ensures PulledFrom(c, s.cfg, height, old(s.infos), s.infos, s.partitions, n, peer)
  {
    hide LedgerOk, Records, ParentClosed, ClosedIn, TableCurrent, FromChain, Tracked, PulledFrom, Legible;
    ghost var before := s.infos;
    PeerAnswers(c, s.cfg, height, peer, m);
    NodeIsReady(c, s.cfg, height, mapi, s.infos, s.partitions, n, peer);
    assert s.partitions.Keys + s.dirty == s.partitions.Keys;
    var stalled := s.SyncPatitions(c, height, n, 0, end, [peer], mapi, ts);
    assert !stalled;
    PassIsPull(c, s.cfg, height, before, s.infos, s.partitions, n, peer, n);
    PulledIsLegible(c, s.cfg, height, before, s.infos, peer);
  }
}
