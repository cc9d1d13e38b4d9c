/** When CLOSED is final: in every interleaving in which no transaction is processed by two workers at once. */
module Closing {
  import opened Script
  import opened Model
  import opened Chains
  import opened Store
  import opened Workers
  import opened Sorting
  import opened Batches

  // ----- what a closed transaction's inputs look like

  /** A lookup of `op` will not answer "unknow utxo". */
  predicate Known(l: Ledger, op: OutPoint) {
    VoutKey(op) in l.points || IsClosed(l, op.txid)
  }

  predicate InputsKnown(l: Ledger, tx: MsgTx) {
    forall i | 0 <= i < |tx.ins| && IsBadgeVin(tx.ins[i]) :: Known(l, tx.ins[i].prev)
  }

  /** Every closed transaction could be parsed again. */
  ghost predicate Settled(c: Chain, l: Ledger) {
    forall id | id in c.txs && IsClosed(l, id) :: InputsKnown(l, c.txs[id])
  }

  lemma {:induction false} ScanKnown(l: Ledger, tx: MsgTx, ts: int, n: nat)
    requires n <= |tx.ins|
    ensures ScanVins(l, tx, ts, n).Some? <==> forall i | 0 <= i < n && IsBadgeVin(tx.ins[i]) :: Known(l, tx.ins[i].prev)
  {
    if n > 0 {
      ScanKnown(l, tx, ts, n - 1);
    }
  }

  /**
   * What one call does to a recorded transaction: CLOSED if all its badge inputs are known, else OPEN and no row
   * added.
   */
  lemma ProcessDecides(l: Ledger, tx: MsgTx, ts: int)
    requires tx.txid in l.infos
    ensures var l' := Process(l, tx, ts);
            && l'.infos == l.infos[tx.txid := l.infos[tx.txid].(state := if InputsKnown(l, tx) then Closed else Open)]
            && (OutcomeOf(l, tx, ts) == UnknowUtxo <==> !InputsKnown(l, tx))
            && (!InputsKnown(l, tx) ==> l'.points == l.points)
  {
    hide AddPoints, FinishParse;
    ScanKnown(l, tx, ts, |tx.ins|);
  }

  lemma {:induction false} AddStored(points: map<Key, TxPoint>, ps: seq<TxPoint>)
    requires HasAll(points, ps)
    ensures AddPoints(points, ps) == points
    decreases |ps|
  {
    if ps != [] {
      assert ps[0] in ps;
      AddStored(points, ps[1..]);
    }
  }

  lemma MeaningStored(c: Chain, points: map<Key, TxPoint>, id: Txid, ts: int)
    requires id in c.txs && HasAll(points, Points(c, id))
    ensures HasAll(points, Rows(Meaning(c, id, ts)))
  {
    hide Meaning;
    StampedMeaning(c, id, ts);
    var rows, points0 := Rows(Meaning(c, id, ts)), Points(c, id);
    forall p | p in rows ensures KeyOf(p) in points {
      var i :| 0 <= i < |rows| && rows[i] == p;
      assert points0[i] in points0 && Content(p) == points0[i];
    }
  }

  // ----- processing again

  /** Processing a closed transaction again, at any later time, changes nothing at all. */
  lemma ReprocessingIsIdle(c: Chain, l: Ledger, tx: MsgTx, ts: int)
    requires LedgerOk(c, l) && Settled(c, l) && ChainTx(c, tx) && IsClosed(l, tx.txid)
    ensures Process(l, tx, ts) == l
  {
    hide ParseBadgeVoutScript, Meaning, FinishParse, StoreOk, MarksOk;
    ScanKnown(l, tx, ts, |tx.ins|);
    ParseIsMeaning(c, l, tx, ts);
    MeaningStored(c, l.points, tx.txid, ts);
    AddStored(l.points, Rows(Meaning(c, tx.txid, ts)));
    assert SetState(l.infos, tx.txid, Closed) == l.infos;
  }

  // ----- workers that exclude each other per transaction

  /** The transaction a worker processes, if any. */
  ghost function TxOf(wk: Worker): set<Txid> {
    if wk.Marking? then {} else {wk.tx.txid}
  }

  /** The one restriction: no worker starts on a transaction that another worker is processing. */
  ghost predicate Excludes(s: System, step: Step) {
    step.Start? ==> forall w | w in s.workers :: step.id !in TxOf(s.workers[w])
  }

  /** A run, interleaved freely otherwise, in which no transaction is processed by two workers at once. */
  ghost predicate ExclusiveRun(c: Chain, s: System, steps: seq<Step>)
    decreases |steps|
  {
    steps == [] || (Excludes(s, steps[0]) && ExclusiveRun(c, Apply(c, s, steps[0]), steps[1..]))
  }

  predicate KnownUpTo(l: Ledger, tx: MsgTx, n: nat)
    requires n <= |tx.ins|
  {
    forall i | 0 <= i < n && IsBadgeVin(tx.ins[i]) :: Known(l, tx.ins[i].prev)
  }

  /** A worker that will not take CLOSED back. */
  predicate Calm(l: Ledger, wk: Worker) {
    match wk
    case Parsing(tx, ts, i, scan, stage) =>
      && i <= |tx.ins| && KnownUpTo(l, tx, i)
      && (stage != FirstRead ==> i < |tx.ins| && IsBadgeVin(tx.ins[i]))
      && (stage == StateRead && IsClosed(l, tx.txid) ==> IsClosed(l, tx.ins[i].prev.txid))
      && (stage == SecondRead ==> IsClosed(l, tx.ins[i].prev.txid))
    case Inserting(tx, ts, rows, k) => InputsKnown(l, tx)
    case Finishing(tx, state) => if state == Closed then InputsKnown(l, tx) else !IsClosed(l, tx.txid)
    case Marking(vin, voutMarked) => true
  }

  ghost predicate Orderly(c: Chain, s: System) {
    && Settled(c, s.ledger)
    && (forall w | w in s.workers :: Calm(s.ledger, s.workers[w]) && OnChain(c, s.workers[w]))
    && (forall v, w | v in s.workers && w in s.workers && v != w :: TxOf(s.workers[v]) !! TxOf(s.workers[w]))
  }

  /** `l'` has every row of `l`, has closed what `l` has, and at most `ids` in addition. */
  ghost predicate Advances(l: Ledger, l': Ledger, ids: set<Txid>) {
    && (forall k | k in l.points :: k in l'.points)
    && (forall t | IsClosed(l, t) :: IsClosed(l', t))
    && (forall t | IsClosed(l', t) && t !in ids :: IsClosed(l, t))
  }

  lemma AdvancesKnown(l: Ledger, l': Ledger, ids: set<Txid>, tx: MsgTx)
    requires Advances(l, l', ids)
    ensures forall op | Known(l, op) :: Known(l', op)
    ensures InputsKnown(l, tx) ==> InputsKnown(l', tx)
  {
  }

  /** Progress on another transaction leaves a worker calm. */
  lemma AdvancesCalm(l: Ledger, l': Ledger, ids: set<Txid>, wk: Worker)
    requires Advances(l, l', ids) && Calm(l, wk) && (wk.Marking? || wk.tx.txid !in ids)
    ensures Calm(l', wk)
  {
    hide Known, IsClosed;
    if !wk.Marking? {
      AdvancesKnown(l, l', ids, wk.tx);
    }
  }

  /** A write on behalf of `tx` settles when `tx` has its inputs known or is not closed by it. */
  lemma AdvancesSettled(c: Chain, l: Ledger, l': Ledger, tx: MsgTx)
    requires Settled(c, l) && Advances(l, l', {tx.txid}) && ChainTx(c, tx)
    requires IsClosed(l', tx.txid) ==> InputsKnown(l', tx)
    ensures Settled(c, l')
  {
    hide InputsKnown, IsClosed;
    forall id | id in c.txs && IsClosed(l', id) && id != tx.txid ensures InputsKnown(l', c.txs[id]) {
      AdvancesKnown(l, l', {tx.txid}, c.txs[id]);
    }
  }

  lemma ParsingCalm(c: Chain, l: Ledger, tx: MsgTx, ts: int, i: nat, scan: VinScan, stage: Stage)
    requires Settled(c, l) && ChainTx(c, tx) && Calm(l, Parsing(tx, ts, i, scan, stage))
    ensures Calm(l, AdvanceParsing(l, tx, ts, i, scan, stage))
  {
    hide FinishParse, ScanVin;
    if IsClosed(l, tx.txid) {
      assert InputsKnown(l, tx);
    }
  }

  /** The worker's transaction, if it has one, is the chain's. */
  ghost predicate OnChain(c: Chain, wk: Worker) {
    wk.Marking? || ChainTx(c, wk.tx)
  }

  /** One read or write of a calm worker: nothing is taken back, and the worker stays calm. */
  lemma AdvanceCalm(c: Chain, l: Ledger, wk: Worker)
    requires Settled(c, l) && Calm(l, wk) && OnChain(c, wk)
    ensures var (l', next) := AdvanceWorker(l, wk);
            && Settled(c, l') && Advances(l, l', TxOf(wk))
            && (next.Some? ==> Calm(l', next.value) && OnChain(c, next.value) && TxOf(next.value) == TxOf(wk))
  {
    hide ScanVins, FinishParse, AdvanceParsing, AddPoint;
    match wk
    case Parsing(tx, ts, i, scan, stage) =>
      ParsingCalm(c, l, tx, ts, i, scan, stage);
      ParsingSameTx(l, tx, ts, i, scan, stage);
    case Inserting(tx, ts, rows, k) =>
      if k < |rows| {
        var l' := l.(points := AddPoint(l.points, rows[k]));
        AddPointGrows(l.points, rows[k]);
        AdvancesKnown(l, l', {tx.txid}, tx);
        AdvancesSettled(c, l, l', tx);
      }
    case Finishing(tx, state) =>
      var l' := l.(infos := SetState(l.infos, tx.txid, state));
      AdvancesKnown(l, l', {tx.txid}, tx);
      AdvancesSettled(c, l, l', tx);
    case Marking(vin, voutMarked) =>
      MarkedSettled(c, l, if voutMarked then KeyOf(vin) else SpentKey(vin));
  }

  lemma ParsingSameTx(l: Ledger, tx: MsgTx, ts: int, i: nat, scan: VinScan, stage: Stage)
    ensures var wk := AdvanceParsing(l, tx, ts, i, scan, stage); !wk.Marking? && wk.tx == tx
  {
  }

  lemma MarkedSettled(c: Chain, l: Ledger, k: Key)
    requires Settled(c, l)
    ensures Settled(c, l.(points := MarkSpent(l.points, k)))
  {
    var l' := l.(points := MarkSpent(l.points, k));
    assert forall op | Known(l, op) :: Known(l', op);
    forall id | id in c.txs && IsClosed(l', id) ensures InputsKnown(l', c.txs[id]) {
      assert InputsKnown(l, c.txs[id]);
    }
  }

  lemma AdvanceOrderly(c: Chain, s: System, w: nat)
    requires Orderly(c, s) && w in s.workers
    ensures Orderly(c, Apply(c, s, Advance(w)))
    ensures Advances(s.ledger, Apply(c, s, Advance(w)).ledger, TxOf(s.workers[w]))
  {
    hide Settled, Calm, OnChain, AdvanceWorker, Advances, TxOf;
    var wk := s.workers[w];
    AdvanceCalm(c, s.ledger, wk);
    var (l', next) := AdvanceWorker(s.ledger, wk);
    forall v | v in s.workers && v != w ensures Calm(l', s.workers[v]) {
      TxOfOther(s.workers[v], TxOf(wk));
      AdvancesCalm(s.ledger, l', TxOf(wk), s.workers[v]);
    }
  }

  lemma TxOfOther(wk: Worker, ids: set<Txid>)
    requires TxOf(wk) !! ids
    ensures wk.Marking? || wk.tx.txid !in ids
  {
  }

  lemma RecordOrderly(c: Chain, s: System, id: Txid, height: int)
    requires Orderly(c, s) && id in c.txs
    ensures var l' := s.ledger.(infos := AddInfo(s.ledger.infos, c.txs[id], height));
            Orderly(c, s.(ledger := l')) && Advances(s.ledger, l', {})
  {
    var l, l' := s.ledger, s.ledger.(infos := AddInfo(s.ledger.infos, c.txs[id], height));
    assert Advances(l, l', {});
    hide AddInfo, Calm, InputsKnown, IsClosed;
    forall t | t in c.txs && IsClosed(l', t) ensures InputsKnown(l', c.txs[t]) {
      AdvancesKnown(l, l', {}, c.txs[t]);
    }
    forall w | w in s.workers ensures Calm(l', s.workers[w]) {
      AdvancesCalm(l, l', {}, s.workers[w]);
    }
  }

  lemma JoinOrderly(c: Chain, s: System, w: nat, wk: Worker)
    requires Orderly(c, s) && w !in s.workers && Calm(s.ledger, wk) && OnChain(c, wk)
    requires forall v | v in s.workers :: TxOf(s.workers[v]) !! TxOf(wk)
    ensures Orderly(c, s.(workers := s.workers[w := wk]))
  {
    hide Settled, Calm, OnChain, TxOf;
  }

  /** Without two workers on one transaction, no step takes CLOSED back. */
  lemma ApplyOrderly(c: Chain, s: System, step: Step)
    requires Orderly(c, s) && Excludes(s, step)
    ensures Orderly(c, Apply(c, s, step))
    ensures forall id | IsClosed(s.ledger, id) :: IsClosed(Apply(c, s, step).ledger, id)
  {
    hide Settled, Calm, OnChain, AdvanceWorker, AddInfo, IsClosed;
    match step
    case Record(id, height) =>
      if id in c.txs {
        RecordOrderly(c, s, id, height);
      }
    case Start(w, id, ts) =>
      if id in c.txs && w !in s.workers {
        StartCalm(c, s.ledger, id, ts);
        JoinOrderly(c, s, w, Parsing(c.txs[id], ts, 0, NO_VINS, FirstRead));
      }
    case Prune(w, key) =>
      if w !in s.workers && key in s.ledger.points {
        MarkingCalm(c, s.ledger, s.ledger.points[key]);
        JoinOrderly(c, s, w, Marking(s.ledger.points[key], false));
      }
    case Advance(w) =>
      if w in s.workers {
        AdvanceOrderly(c, s, w);
      }
    case Stop(w) =>
  }

  lemma StartCalm(c: Chain, l: Ledger, id: Txid, ts: int)
    requires id in c.txs
    ensures var wk := Parsing(c.txs[id], ts, 0, NO_VINS, FirstRead); Calm(l, wk) && OnChain(c, wk)
  {
  }

  lemma MarkingCalm(c: Chain, l: Ledger, p: TxPoint)
    ensures Calm(l, Marking(p, false)) && OnChain(c, Marking(p, false))
  {
  }

  lemma {:induction false} RunOrderly(c: Chain, s: System, steps: seq<Step>)
    requires Orderly(c, s) && ExclusiveRun(c, s, steps)
    ensures Orderly(c, Run(c, s, steps))
    ensures forall id | IsClosed(s.ledger, id) :: IsClosed(Run(c, s, steps).ledger, id)
    decreases |steps|
  {
    hide Orderly, Apply, Excludes, IsClosed;
    if steps != [] {
      ApplyOrderly(c, s, steps[0]);
      RunOrderly(c, Apply(c, s, steps[0]), steps[1..]);
    }
  }

  lemma EmptyOrderly(c: Chain)
    ensures Orderly(c, EMPTY)
  {
  }

  /**
   * CLOSED is final in every interleaving in which no transaction is processed by two workers at once:
   * once closed, a transaction stays closed whatever steps follow, and calling ProcessMsgTx on it again
   * leaves the whole ledger as it is.
   */
  lemma ClosedIsFinal(c: Chain, steps: seq<Step>, more: seq<Step>, id: Txid, ts: int)
    requires ExclusiveRun(c, EMPTY, steps) && ExclusiveRun(c, Run(c, EMPTY, steps), more)
    requires id in c.txs && IsClosed(Run(c, EMPTY, steps).ledger, id)
    ensures var later := Run(c, Run(c, EMPTY, steps), more).ledger;
            IsClosed(later, id) && Process(later, c.txs[id], ts) == later
  {
    hide ExclusiveRun, Run, Orderly, SystemOk, IsClosed, Process;
    var s := Run(c, EMPTY, steps);
    EmptyOrderly(c);
    EmptyOk(c);
    RunOrderly(c, EMPTY, steps);
    RunOrderly(c, s, more);
    RunKeeps(c, EMPTY, steps);
    RunKeeps(c, s, more);
    OrderlyIsIdle(c, Run(c, s, more), id, ts);
  }

  lemma OrderlyIsIdle(c: Chain, s: System, id: Txid, ts: int)
    requires SystemOk(c, s) && Orderly(c, s) && id in c.txs && IsClosed(s.ledger, id)
    ensures Process(s.ledger, c.txs[id], ts) == s.ledger
  {
    hide LedgerOk, Settled, Process, WorkersOk;
    ReprocessingIsIdle(c, s.ledger, c.txs[id], ts);
  }

  // ----- the nil row of an illegal vin

  /**
   * As written, the vin loop reaches input `i` and dereferences the nil row of an "illegal vin" there: no earlier
   * badge input ended the loop with "unknow utxo".
   */
  predicate DereferencesNil(l: Ledger, tx: MsgTx, i: nat) {
    && i < |tx.ins| && IsBadgeVin(tx.ins[i]) && LookupIn(l, tx.ins[i].prev) == IllegalVin
    && (forall j | 0 <= j < i && IsBadgeVin(tx.ins[j]) :: LookupIn(l, tx.ins[j].prev) != UnknownUtxo)
  }

  lemma UnknownIsNotKnown(l: Ledger, op: OutPoint)
    ensures LookupIn(l, op) != UnknownUtxo <==> Known(l, op)
  {
  }

  /** It does so at an input that, by the transaction's meaning, spends nothing, once all inputs up to it are known. */
  lemma NilIsIllegalVin(c: Chain, l: Ledger, tx: MsgTx, i: nat)
    requires LedgerOk(c, l) && ChainTx(c, tx)
    ensures DereferencesNil(l, tx, i) <==> i < |tx.ins| && KnownUpTo(l, tx, i + 1) && IsIllegalVin(c, tx.txid, i)
  {
    hide LedgerOk, LookupIn, Known, Holds;
    forall j | 0 <= j <= i && j < |tx.ins|
      ensures LookupIn(l, tx.ins[j].prev) != UnknownUtxo <==> Known(l, tx.ins[j].prev)
    {
      UnknownIsNotKnown(l, tx.ins[j].prev);
    }
    if i < |tx.ins| {
      LookupIsHolds(c, l, tx.ins[i].prev);
    }
  }

  /**
   * So the code as written panics on a transaction whose badge inputs are all known exactly when one of them spends
   * nothing; on every other such transaction it does what the model says.
   */
  lemma PanicsExactly(c: Chain, l: Ledger, tx: MsgTx)
    requires LedgerOk(c, l) && ChainTx(c, tx) && InputsKnown(l, tx)
    ensures (exists i :: DereferencesNil(l, tx, i)) <==> exists i: nat :: IsIllegalVin(c, tx.txid, i)
    ensures (exists i :: DereferencesNil(l, tx, i)) <==> RefScan(c, tx.txid, 0, |tx.ins|).illegal
  {
    hide LedgerOk, Known, DereferencesNil, IsIllegalVin, RefScan;
    ScannedIllegal(c, tx.txid, 0, |tx.ins|);
    IllegalIsInput(c, tx.txid);
    forall i: nat ensures DereferencesNil(l, tx, i) <==> IsIllegalVin(c, tx.txid, i) {
      NilIsIllegalVin(c, l, tx, i);
    }
  }

  lemma IllegalIsInput(c: Chain, id: Txid)
    requires id in c.txs
    ensures forall i: nat | IsIllegalVin(c, id, i) :: i < |c.txs[id].ins|
  {
  }

  // ----- one caller at a time

  /** What a node driven by whole calls keeps: every stored row belongs to a closed transaction. */
  ghost predicate Tidy(c: Chain, l: Ledger) {
    Settled(c, l) && forall k | k in l.points :: IsClosed(l, k.txid)
  }

  lemma {:induction false} AddedKeys(points: map<Key, TxPoint>, ps: seq<TxPoint>, id: Txid)
    requires forall p | p in ps :: p.txid == id
    ensures forall k | k in points :: k in AddPoints(points, ps)
    ensures forall k | k in AddPoints(points, ps) :: k in points || k.txid == id
    decreases |ps|
  {
    if ps != [] {
      assert ps[0] in ps;
      AddedKeys(AddPoint(points, ps[0]), ps[1..], id);
    }
  }

  /** The rows of a meaning carry its txid, at any timestamp. */
  lemma RowTxids(c: Chain, id: Txid, ts: int)
    requires id in c.txs
    ensures forall p | p in Rows(Meaning(c, id, ts)) :: p.txid == id
  {
    VinRows(c, id, ts);
    VoutRows(c, id, ts);
  }

  /** A call on a recorded, not yet closed transaction: only it may become closed, and only it may get rows. */
  lemma ProcessAdvances(c: Chain, l: Ledger, tx: MsgTx, ts: int)
    requires LedgerOk(c, l) && ChainTx(c, tx) && tx.txid in l.infos && !IsClosed(l, tx.txid)
    ensures var l' := Process(l, tx, ts);
            && Advances(l, l', {tx.txid}) && (IsClosed(l', tx.txid) <==> InputsKnown(l, tx))
            && (forall k | k in l'.points :: k in l.points || (k.txid == tx.txid && InputsKnown(l, tx)))
  {
    hide LedgerOk, FinishParse, AddPoints, InputsKnown;
    ProcessDecides(l, tx, ts);
    if InputsKnown(l, tx) {
      ParsedWhenKnown(l, tx, ts);
      ParseIsMeaning(c, l, tx, ts);
      RowTxids(c, tx.txid, ts);
      AddedKeys(l.points, Rows(Meaning(c, tx.txid, ts)), tx.txid);
    }
    hide Parse, Meaning;
  }

  lemma ParsedWhenKnown(l: Ledger, tx: MsgTx, ts: int)
    requires InputsKnown(l, tx)
    ensures Parse(l, tx, ts).Some?
  {
    hide FinishParse;
    ScanKnown(l, tx, ts, |tx.ins|);
  }

  lemma ProcessTidy(c: Chain, l: Ledger, tx: MsgTx, ts: int)
    requires LedgerOk(c, l) && Tidy(c, l) && ChainTx(c, tx) && tx.txid in l.infos
    ensures Tidy(c, Process(l, tx, ts))
  {
    hide LedgerOk, Settled, Process, InputsKnown, IsClosed;
    if IsClosed(l, tx.txid) {
      ReprocessingIsIdle(c, l, tx, ts);
    } else {
      ProcessAdvances(c, l, tx, ts);
      var l' := Process(l, tx, ts);
      AdvancesKnown(l, l', {tx.txid}, tx);
      AdvancesSettled(c, l, l', tx);
    }
  }

  lemma {:induction false} ProcessAllTidy(c: Chain, l: Ledger, txs: seq<MsgTx>, ts: int)
    requires LedgerOk(c, l) && Tidy(c, l) && forall tx | tx in txs :: ChainTx(c, tx) && tx.txid in l.infos
    ensures Tidy(c, ProcessAll(l, txs, ts))
    decreases |txs|
  {
    hide LedgerOk, Tidy, Process, ChainTx;
    if txs != [] {
      assert txs[0] in txs;
      ProcessTidy(c, l, txs[0], ts);
      ProcessKeeps(c, l, txs[0], ts);
      ProcessSameKeys(l, txs[0], ts);
      ProcessAllTidy(c, Process(l, txs[0], ts), txs[1..], ts);
    }
  }

  lemma ProcessSameKeys(l: Ledger, tx: MsgTx, ts: int)
    ensures Process(l, tx, ts).infos.Keys == l.infos.Keys
  {
    hide Parse, AddPoints;
  }

  /** Changes that neither add nor remove rows, nor close or reopen anything. */
  lemma SameTidy(c: Chain, l: Ledger, l': Ledger)
    requires Tidy(c, l) && l'.points.Keys == l.points.Keys && forall t :: IsClosed(l', t) <==> IsClosed(l, t)
    ensures Tidy(c, l')
  {
    hide IsClosed;
    assert forall k :: k in l'.points <==> k in l.points;
    forall id | id in c.txs && IsClosed(l', id) ensures InputsKnown(l', c.txs[id]) {
      assert InputsKnown(l, c.txs[id]);
    }
  }

  // ----- the verdict of a pass

  /** Whether a transaction's inputs are known depends only on the rows and states of its badge parents. */
  lemma SameInputs(l: Ledger, l': Ledger, tx: MsgTx)
    requires forall i | 0 <= i < |tx.ins| && IsBadgeVin(tx.ins[i]) ::
               Known(l', tx.ins[i].prev) <==> Known(l, tx.ins[i].prev)
    ensures InputsKnown(l', tx) <==> InputsKnown(l, tx)
  {
  }

  /** Processing `tx` decides nothing about outpoints of other transactions. */
  lemma ProcessKnown(c: Chain, l: Ledger, tx: MsgTx, ts: int, op: OutPoint)
    requires LedgerOk(c, l) && ChainTx(c, tx) && tx.txid in l.infos && op.txid != tx.txid
    ensures Known(Process(l, tx, ts), op) <==> Known(l, op)
  {
    hide LedgerOk, FinishParse, AddPoints, InputsKnown;
    ProcessDecides(l, tx, ts);
    if InputsKnown(l, tx) {
      ParsedWhenKnown(l, tx, ts);
      ParseIsMeaning(c, l, tx, ts);
      RowTxids(c, tx.txid, ts);
      AddedKeys(l.points, Rows(Meaning(c, tx.txid, ts)), tx.txid);
    }
    hide Parse, Meaning;
  }

  /** A closed transaction whose inputs are known is left as it is. */
  lemma KnownIsIdle(c: Chain, l: Ledger, tx: MsgTx, ts: int)
    requires LedgerOk(c, l) && InputsKnown(l, tx) && ChainTx(c, tx) && IsClosed(l, tx.txid)
    ensures Process(l, tx, ts) == l
  {
    hide ParseBadgeVoutScript, Meaning, FinishParse, StoreOk, MarksOk;
    ScanKnown(l, tx, ts, |tx.ins|);
    ParseIsMeaning(c, l, tx, ts);
    MeaningStored(c, l.points, tx.txid, ts);
    AddStored(l.points, Rows(Meaning(c, tx.txid, ts)));
    assert SetState(l.infos, tx.txid, Closed) == l.infos;
  }

  /** The verdict on `tx` has been reached: it is closed exactly when its inputs are known. */
  ghost predicate Decided(l: Ledger, tx: MsgTx) {
    IsClosed(l, tx.txid) <==> InputsKnown(l, tx)
  }

  /** A second call on a decided transaction gives the same verdict and changes nothing that is known. */
  lemma DecidedAgain(c: Chain, l: Ledger, tx: MsgTx, ts: int)
    requires LedgerOk(c, l) && ChainTx(c, tx) && tx.txid in l.infos && Decided(l, tx)
    ensures var l' := Process(l, tx, ts);
            && (forall t :: IsClosed(l', t) <==> IsClosed(l, t)) && l'.points == l.points
            && (OutcomeOf(l, tx, ts).Processed? <==> IsClosed(l, tx.txid))
  {
    hide LedgerOk, Process, InputsKnown;
    ProcessDecides(l, tx, ts);
    OutcomeIs(l, tx, ts);
    if IsClosed(l, tx.txid) {
      KnownIsIdle(c, l, tx, ts);
    }
  }

  lemma OutcomeIs(l: Ledger, tx: MsgTx, ts: int)
    requires tx.txid in l.infos
    ensures OutcomeOf(l, tx, ts).Processed? <==> InputsKnown(l, tx)
  {
    hide FinishParse;
    ScanKnown(l, tx, ts, |tx.ins|);
  }

  /** The first call on a transaction decides it, and leaves decided what does not spend it. */
  lemma DecidedFirst(c: Chain, l: Ledger, tx: MsgTx, ts: int)
    requires LedgerOk(c, l) && ChainTx(c, tx) && tx.txid in l.infos
    requires forall vin | vin in tx.ins :: vin.prev.txid != tx.txid
    ensures var l' := Process(l, tx, ts);
            && Decided(l', tx) && (OutcomeOf(l, tx, ts).Processed? <==> IsClosed(l', tx.txid))
            && (forall t | t != tx.txid :: IsClosed(l', t) <==> IsClosed(l, t))
  {
    hide LedgerOk, Process, InputsKnown, Known;
    ProcessDecides(l, tx, ts);
    OutcomeIs(l, tx, ts);
    forall i | 0 <= i < |tx.ins| && IsBadgeVin(tx.ins[i])
      ensures Known(Process(l, tx, ts), tx.ins[i].prev) <==> Known(l, tx.ins[i].prev)
    {
      assert tx.ins[i] in tx.ins;
      ProcessKnown(c, l, tx, ts, tx.ins[i].prev);
    }
    SameInputs(l, Process(l, tx, ts), tx);
  }

  lemma OtherStaysDecided(c: Chain, l: Ledger, tx: MsgTx, ts: int, other: MsgTx)
    requires LedgerOk(c, l) && ChainTx(c, tx) && tx.txid in l.infos && Decided(l, other) && other.txid != tx.txid
    requires forall vin | vin in other.ins :: vin.prev.txid != tx.txid
    ensures Decided(Process(l, tx, ts), other)
  {
    hide LedgerOk, Process, InputsKnown, Known;
    ProcessDecides(l, tx, ts);
    forall i | 0 <= i < |other.ins| && IsBadgeVin(other.ins[i])
      ensures Known(Process(l, tx, ts), other.ins[i].prev) <==> Known(l, other.ins[i].prev)
    {
      assert other.ins[i] in other.ins;
      ProcessKnown(c, l, tx, ts, other.ins[i].prev);
    }
    SameInputs(l, Process(l, tx, ts), other);
  }

  /** After its first `n` transactions a pass has decided them, and each outcome was the verdict. */
  ghost predicate Verdicts(l': Ledger, txs: seq<MsgTx>, outcomes: seq<Outcome>) {
    && |outcomes| == |txs|
    && (forall j | 0 <= j < |txs| :: Decided(l', txs[j]))
    && (forall j | 0 <= j < |txs| :: outcomes[j].Processed? <==> IsClosed(l', txs[j].txid))
  }

  /** One more transaction: decided before, or new and then spent by none of the earlier ones. */
  lemma NextVerdict(c: Chain, l: Ledger, txs: seq<MsgTx>, outcomes: seq<Outcome>, tx: MsgTx, ts: int)
    requires LedgerOk(c, l) && Verdicts(l, txs, outcomes) && tx.txid in l.infos
    requires forall t | t in txs + [tx] :: ChainTx(c, t)
    requires Mentions(txs, tx.txid)
             || forall t, vin | t in txs + [tx] && vin in t.ins :: vin.prev.txid != tx.txid
    ensures Verdicts(Process(l, tx, ts), txs + [tx], outcomes + [OutcomeOf(l, tx, ts)])
  {
    hide LedgerOk, Process, OutcomeOf, InputsKnown, IsClosed;
    var l' := Process(l, tx, ts);
    assert tx in txs + [tx] && forall t | t in txs :: t in txs + [tx];
    if Mentions(txs, tx.txid) {
      var k :| 0 <= k < |txs| && txs[k].txid == tx.txid;
      assert txs[k] in txs && txs[k] == tx;
      DecidedAgain(c, l, tx, ts);
      forall j | 0 <= j < |txs| ensures Decided(l', txs[j]) {
        SameKnown(l, l', txs[j]);
      }
    } else {
      DecidedFirst(c, l, tx, ts);
      forall j | 0 <= j < |txs|
        ensures Decided(l', txs[j]) && (IsClosed(l', txs[j].txid) <==> IsClosed(l, txs[j].txid))
      {
        assert txs[j] in txs && txs[j].txid != tx.txid;
        OtherStaysDecided(c, l, tx, ts, txs[j]);
      }
    }
  }

  lemma SameKnown(l: Ledger, l': Ledger, tx: MsgTx)
    requires l'.points == l.points && forall t :: IsClosed(l', t) <==> IsClosed(l, t)
    ensures InputsKnown(l', tx) <==> InputsKnown(l, tx)
  {
    hide IsClosed;
  }

  /**
   * A pass in topological order reports its verdicts: each call succeeds exactly when its transaction ends
   * closed, however often the batch lists it.
   */
  lemma {:induction false} PassVerdicts(c: Chain, l: Ledger, txs: seq<MsgTx>, n: nat, ts: int)
    requires LedgerOk(c, l) && Topological(txs) && n <= |txs|
    requires forall tx | tx in txs :: ChainTx(c, tx) && tx.txid in l.infos
    ensures LedgerOk(c, ProcessAll(l, txs[..n], ts)) && ProcessAll(l, txs[..n], ts).infos.Keys == l.infos.Keys
    ensures Verdicts(ProcessAll(l, txs[..n], ts), txs[..n], OutcomesOf(l, txs[..n], ts))
  {
    hide LedgerOk, Process, OutcomeOf, Decided, Topological, IsClosed;
    if n > 0 {
      PassVerdicts(c, l, txs, n - 1, ts);
      var front, tx := txs[..n - 1], txs[n - 1];
      assert txs[..n] == front + [tx] && tx in txs;
      ProcessAllNext(l, front, tx, ts);
      var l1 := ProcessAll(l, front, ts);
      ProcessKeeps(c, l1, tx, ts);
      ProcessSameKeys(l1, tx, ts);
      NewIsUnspent(c, txs, n - 1);
      hide ProcessAll, OutcomesOf;
      NextVerdict(c, l1, front, OutcomesOf(l, front, ts), tx, ts);
    }
  }

  /** In topological order, a transaction that is new at position `i` is spent by nothing up to there. */
  lemma NewIsUnspent(c: Chain, txs: seq<MsgTx>, i: nat)
    requires Topological(txs) && i < |txs|
    ensures Mentions(txs[..i], txs[i].txid)
            || forall t, vin | t in txs[..i] + [txs[i]] && vin in t.ins :: vin.prev.txid != txs[i].txid
  {
    var id := txs[i].txid;
    if !Mentions(txs[..i], id) {
      forall t, vin | t in txs[..i] + [txs[i]] && vin in t.ins ensures vin.prev.txid != id {
        var j :| 0 <= j <= i && txs[j] == t;
        assert ParentsBefore(txs, j) && Mentions(txs, id);
        MentionedLater(txs, j, i, id);
      }
    }
  }

  lemma MentionedLater(txs: seq<MsgTx>, j: nat, i: nat, id: Txid)
    requires j <= i <= |txs|
    ensures Mentions(txs[..j], id) ==> Mentions(txs[..i], id)
  {
    if Mentions(txs[..j], id) {
      var k :| 0 <= k < |txs[..j]| && txs[..j][k].txid == id;
      assert txs[..i][k].txid == id;
    }
  }

  lemma {:induction false} FailedMembers(txs: seq<MsgTx>, outcomes: seq<Outcome>, t: Txid)
    requires |txs| == |outcomes|
    ensures t in FailedIn(txs, outcomes) <==>
            exists j | 0 <= j < |txs| :: txs[j].txid == t && !outcomes[j].Processed?
  {
    if txs != [] {
      var n := |txs| - 1;
      var front, before := txs[..n], outcomes[..n];
      FailedMembers(front, before, t);
      assert t in FailedIn(txs, outcomes) <==>
             t in FailedIn(front, before) || (txs[n].txid == t && !outcomes[n].Processed?);
      hide FailedIn;
      assert forall j | 0 <= j < n :: front[j] == txs[j] && before[j] == outcomes[j];
    }
  }

  /** So what a pass reports as failed is what it leaves open. */
  lemma FailedIsOpen(c: Chain, l: Ledger, txs: seq<MsgTx>, ts: int, t: Txid)
    requires LedgerOk(c, l) && Topological(txs)
    requires forall tx | tx in txs :: ChainTx(c, tx) && tx.txid in l.infos
    ensures t in FailedIn(txs, OutcomesOf(l, txs, ts)) <==> Mentions(txs, t) && !IsClosed(ProcessAll(l, txs, ts), t)
  {
    hide LedgerOk, Topological, ProcessAll, OutcomesOf, IsClosed, Decided;
    PassVerdicts(c, l, txs, |txs|, ts);
    assert txs[..|txs|] == txs;
    FailedMembers(txs, OutcomesOf(l, txs, ts), t);
    hide FailedIn;
  }
}
