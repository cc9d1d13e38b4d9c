/**
 * The ledger under concurrency: any number of workers run ProcessMsgTx or SetSpent over one store,
 * interleaved at every single database read and write, started, stopped and restarted at will.
 */
module Workers {
  import opened Script
  import opened Model
  import opened Chains
  import opened Store

  /** GetTxPoint's three reads: the row, the parent's state, the row again. */
  datatype Stage = FirstRead | StateRead | SecondRead

  datatype Worker =
    | Parsing(tx: MsgTx, ts: int, i: nat, scan: VinScan, stage: Stage)
    | Inserting(tx: MsgTx, ts: int, rows: seq<TxPoint>, k: nat)
    | Finishing(tx: MsgTx, state: TxState)
    | Marking(vin: TxPoint, voutMarked: bool)

  datatype System = System(ledger: Ledger, workers: map<nat, Worker>)

  datatype Step =
    | Record(id: Txid, height: int)        // AddMsgTxInfo's commit row
    | Start(w: nat, id: Txid, ts: int)     // a worker enters ProcessMsgTx
    | Prune(w: nat, key: Key)              // a worker of SetSpent picks an unmarked vin row
    | Advance(w: nat)                      // the worker's next read or write
    | Stop(w: nat)                         // the worker dies where it is

  const EMPTY := System(Ledger(map[], map[]), map[])

  /** The worker's next action on the store, and the worker afterwards. */
  function AdvanceWorker(l: Ledger, wk: Worker): (Ledger, Option<Worker>) {
    match wk
    case Parsing(tx, ts, i, scan, stage) => (l, Some(AdvanceParsing(l, tx, ts, i, scan, stage)))
    case Inserting(tx, ts, rows, k) =>
      if k < |rows| then (l.(points := AddPoint(l.points, rows[k])), Some(Inserting(tx, ts, rows, k + 1)))
      else (l, Some(Finishing(tx, Closed)))
    case Finishing(tx, state) => (l.(infos := SetState(l.infos, tx.txid, state)), None)
    case Marking(vin, voutMarked) =>
      if !voutMarked then (l.(points := MarkSpent(l.points, SpentKey(vin))), Some(Marking(vin, true)))
      else (l.(points := MarkSpent(l.points, KeyOf(vin))), None)
  }

  function AdvanceParsing(l: Ledger, tx: MsgTx, ts: int, i: nat, scan: VinScan, stage: Stage): Worker {
    if i >= |tx.ins| then Inserting(tx, ts, Rows(FinishParse(tx, ts, scan)), 0)
    else if !IsBadgeVin(tx.ins[i]) then Parsing(tx, ts, i + 1, scan, FirstRead)
    else
      var op := tx.ins[i].prev;
      if stage != StateRead && VoutKey(op) in l.points then
        Parsing(tx, ts, i + 1, ScanVin(tx, i, ts, scan, Found(l.points[VoutKey(op)])), FirstRead)
      else
        match stage
        case FirstRead => Parsing(tx, ts, i, scan, StateRead)
        case StateRead => if IsClosed(l, op.txid) then Parsing(tx, ts, i, scan, SecondRead) else Finishing(tx, Open)
        case SecondRead => Parsing(tx, ts, i + 1, ScanVin(tx, i, ts, scan, IllegalVin), FirstRead)
  }

  ghost function Apply(c: Chain, s: System, step: Step): System {
    match step
    case Record(id, height) =>
      if id in c.txs then s.(ledger := s.ledger.(infos := AddInfo(s.ledger.infos, c.txs[id], height))) else s
    case Start(w, id, ts) =>
      if id in c.txs && w !in s.workers
      then s.(workers := s.workers[w := Parsing(c.txs[id], ts, 0, NO_VINS, FirstRead)]) else s
    case Prune(w, key) =>
      if w !in s.workers && key in s.ledger.points && key.kind == Vin && !Marked(s.ledger.points, key)
      then s.(workers := s.workers[w := Marking(s.ledger.points[key], false)]) else s
    case Advance(w) =>
      if w !in s.workers then s else
      var (l, next) := AdvanceWorker(s.ledger, s.workers[w]);
      System(l, if next.Some? then s.workers[w := next.value] else s.workers - {w})
    case Stop(w) => s.(workers := s.workers - {w})
  }

  ghost function Run(c: Chain, s: System, steps: seq<Step>): System
    decreases |steps|
  {
    if steps == [] then s else Run(c, Apply(c, s, steps[0]), steps[1..])
  }

  // ----- the invariant

  ghost predicate ChainTx(c: Chain, tx: MsgTx) {
    tx.txid in c.txs && c.txs[tx.txid] == tx
  }

  ghost predicate ParsingOk(c: Chain, points: map<Key, TxPoint>, tx: MsgTx, ts: int, i: nat, scan: VinScan,
    stage: Stage)
  {
    && ChainTx(c, tx) && i <= |tx.ins|
    && scan == RefScan(c, tx.txid, ts, i)
    && HasSpent(points, scan.vins)
    && (stage == SecondRead ==>
          && i < |tx.ins| && tx.ins[i].prev.txid in c.txs
          && HasAll(points, Points(c, tx.ins[i].prev.txid)))
  }

  ghost predicate InsertingOk(c: Chain, points: map<Key, TxPoint>, tx: MsgTx, ts: int, rows: seq<TxPoint>, k: nat) {
    && ChainTx(c, tx) && k <= |rows|
    && rows == Rows(Meaning(c, tx.txid, ts))
    && HasSpent(points, Meaning(c, tx.txid, ts).vins)
    && HasAll(points, rows[..k])
  }

  ghost predicate MarkingOk(points: map<Key, TxPoint>, vin: TxPoint, voutMarked: bool) {
    && vin.kind == Vin && KeyOf(vin) in points && Content(points[KeyOf(vin)]) == Content(vin)
    && SpentKey(vin) in points
    && (voutMarked ==> Marked(points, SpentKey(vin)))
  }

  ghost predicate WorkerOk(c: Chain, points: map<Key, TxPoint>, wk: Worker) {
    match wk
    case Parsing(tx, ts, i, scan, stage) => ParsingOk(c, points, tx, ts, i, scan, stage)
    case Inserting(tx, ts, rows, k) => InsertingOk(c, points, tx, ts, rows, k)
    case Finishing(tx, state) => ChainTx(c, tx) && (state == Closed ==> HasAll(points, Points(c, tx.txid)))
    case Marking(vin, voutMarked) => MarkingOk(points, vin, voutMarked)
  }

  ghost predicate WorkersOk(c: Chain, points: map<Key, TxPoint>, workers: map<nat, Worker>) {
    forall w | w in workers :: WorkerOk(c, points, workers[w])
  }

  ghost predicate SystemOk(c: Chain, s: System) {
    LedgerOk(c, s.ledger) && WorkersOk(c, s.ledger.points, s.workers)
  }

  // ----- every step keeps it

  lemma GrowsKeepsWorker(c: Chain, points: map<Key, TxPoint>, points': map<Key, TxPoint>, wk: Worker)
    requires WorkerOk(c, points, wk) && Grows(points, points')
    ensures WorkerOk(c, points', wk)
  {
  }

  /** The scan's next input, read from the store, is the one the chain prescribes. */
  lemma ScanNext(c: Chain, points: map<Key, TxPoint>, tx: MsgTx, ts: int, i: nat, scan: VinScan, found: Lookup)
    requires ChainTx(c, tx) && i < |tx.ins| && scan == RefScan(c, tx.txid, ts, i) && HasSpent(points, scan.vins)
    requires IsBadgeVin(tx.ins[i])
    requires match found
             case Found(p) => VoutKey(tx.ins[i].prev) in points && p == points[VoutKey(tx.ins[i].prev)]
                              && Holds(c, tx.ins[i].prev) == Found(Content(p))
             case IllegalVin => Holds(c, tx.ins[i].prev) == IllegalVin
             case UnknownUtxo => false
    ensures ScanVin(tx, i, ts, scan, found) == RefScan(c, tx.txid, ts, i + 1)
    ensures HasSpent(points, ScanVin(tx, i, ts, scan, found).vins)
  {
    if found.Found? {
      FoundRow(c, tx.ins[i].prev);
      assert NewVin(tx, i, ts, found.point) == NewVin(tx, i, ts, Content(found.point));
      assert SpentKey(NewVin(tx, i, ts, found.point)) == VoutKey(tx.ins[i].prev);
    }
  }

  lemma ParsingKeeps(c: Chain, l: Ledger, tx: MsgTx, ts: int, i: nat, scan: VinScan, stage: Stage)
    requires LedgerOk(c, l) && ParsingOk(c, l.points, tx, ts, i, scan, stage)
    ensures WorkerOk(c, l.points, AdvanceParsing(l, tx, ts, i, scan, stage))
  {
    hide StoreOk, MarksOk, HasAll, HasSpent, Holds, RefScan, ScanVin, Points, FinishParse;
    if i == |tx.ins| {
      ParsedRows(c, l.points, tx, ts, scan);
    } else if IsBadgeVin(tx.ins[i]) {
      var op := tx.ins[i].prev;
      if stage != StateRead && VoutKey(op) in l.points {
        StoreIsFaithful(c, l.points);
        StoredVout(c, l.points, op);
        ScanNext(c, l.points, tx, ts, i, scan, Found(l.points[VoutKey(op)]));
      } else if stage == SecondRead {
        AbsentVout(c, l.points, op);
        ScanNext(c, l.points, tx, ts, i, scan, IllegalVin);
      }
    } else {
      SkipInput(c, tx, ts, i);
    }
  }

  lemma StoreIsFaithful(c: Chain, points: map<Key, TxPoint>)
    requires StoreOk(c, points)
    ensures Faithful(c, points)
  {
  }

  lemma SkipInput(c: Chain, tx: MsgTx, ts: int, i: nat)
    requires ChainTx(c, tx) && i < |tx.ins| && !IsBadgeVin(tx.ins[i])
    ensures RefScan(c, tx.txid, ts, i + 1) == RefScan(c, tx.txid, ts, i)
  {
  }

  lemma ParsedRows(c: Chain, points: map<Key, TxPoint>, tx: MsgTx, ts: int, scan: VinScan)
    requires ChainTx(c, tx) && scan == RefScan(c, tx.txid, ts, |tx.ins|) && HasSpent(points, scan.vins)
    ensures InsertingOk(c, points, tx, ts, Rows(FinishParse(tx, ts, scan)), 0)
  {
    hide RefScan, FinishParse;
    FinishKeepsVins(tx, ts, scan);
  }

  lemma FinishKeepsVins(tx: MsgTx, ts: int, scan: VinScan)
    ensures FinishParse(tx, ts, scan).vins == scan.vins
  {
    hide TakeVouts, MixesBadges;
  }

  lemma GrowsKeepsWorkers(c: Chain, points: map<Key, TxPoint>, points': map<Key, TxPoint>, workers: map<nat, Worker>)
    requires WorkersOk(c, points, workers) && Grows(points, points')
    ensures WorkersOk(c, points', workers)
  {
    forall w | w in workers ensures WorkerOk(c, points', workers[w]) {
      GrowsKeepsWorker(c, points, points', workers[w]);
    }
  }

  lemma InsertingKeeps(c: Chain, l: Ledger, tx: MsgTx, ts: int, rows: seq<TxPoint>, k: nat)
    requires LedgerOk(c, l) && InsertingOk(c, l.points, tx, ts, rows, k) && k < |rows|
    ensures LedgerOk(c, l.(points := AddPoint(l.points, rows[k])))
    ensures Grows(l.points, AddPoint(l.points, rows[k]))
    ensures InsertingOk(c, AddPoint(l.points, rows[k]), tx, ts, rows, k + 1)
  {
    var p, points' := rows[k], AddPoint(l.points, rows[k]);
    InsertedRow(c, l.points, tx, ts, rows, k);
    AddPointKeeps(c, l.points, tx.txid, p);
    AddPointGrows(l.points, p);
    GrowsKeepsInfos(c, l, points');
    NextInserting(c, l.points, points', tx, ts, rows, k);
  }

  lemma NextInserting(c: Chain, points: map<Key, TxPoint>, points': map<Key, TxPoint>, tx: MsgTx, ts: int,
    rows: seq<TxPoint>, k: nat)
    requires InsertingOk(c, points, tx, ts, rows, k) && k < |rows| && Grows(points, points')
             && KeyOf(rows[k]) in points'
    ensures InsertingOk(c, points', tx, ts, rows, k + 1)
  {
    hide ParseBadgeVoutScript, FinishParse;
    assert rows[..k + 1] == rows[..k] + [rows[k]];
  }

  /** The row about to be inserted has its spent vout, or all its transaction's vins, in the store. */
  lemma InsertedRow(c: Chain, points: map<Key, TxPoint>, tx: MsgTx, ts: int, rows: seq<TxPoint>, k: nat)
    requires InsertingOk(c, points, tx, ts, rows, k) && k < |rows|
    ensures Content(rows[k]) in Points(c, tx.txid) && rows[k].state == MayBeUnspent
    ensures rows[k].kind == Vin ==> SpentKey(rows[k]) in points
    ensures rows[k].kind == Vout ==> HasAll(points, Vins(c, tx.txid))
  {
    var inv := Meaning(c, tx.txid, ts);
    StampedMeaning(c, tx.txid, ts);
    assert Content(rows[k]) == Points(c, tx.txid)[k];
    VinRows(c, tx.txid, ts);
    VoutRows(c, tx.txid, ts);
    if k < |inv.vins| {
      assert rows[k] == inv.vins[k] && IsVinRow(c, tx.txid, ts, rows[k]);
    } else {
      assert rows[k] in inv.vouts;
      assert IsVoutRow(tx, ts, BadgeCodeOf(tx, inv.vins), rows[k]);
      forall q | q in Vins(c, tx.txid) ensures KeyOf(q) in points {
        var j :| 0 <= j < |Vins(c, tx.txid)| && Vins(c, tx.txid)[j] == q;
        assert rows[..k][j] == inv.vins[j] && Content(inv.vins[j]) == q;
        assert inv.vins[j] in rows[..k];
      }
    }
  }

  /** All inserts done: every row of the meaning is stored. */
  lemma InsertedAll(c: Chain, points: map<Key, TxPoint>, tx: MsgTx, ts: int, rows: seq<TxPoint>)
    requires InsertingOk(c, points, tx, ts, rows, |rows|)
    ensures HasAll(points, Points(c, tx.txid))
  {
    StampedMeaning(c, tx.txid, ts);
    forall q | q in Points(c, tx.txid) ensures KeyOf(q) in points {
      var j :| 0 <= j < |rows| && Points(c, tx.txid)[j] == q;
      assert rows[j] in rows[..|rows|] && Content(rows[j]) == q;
    }
  }

  lemma FinishingKeeps(c: Chain, l: Ledger, tx: MsgTx, state: TxState)
    requires LedgerOk(c, l) && WorkerOk(c, l.points, Finishing(tx, state))
    ensures LedgerOk(c, l.(infos := SetState(l.infos, tx.txid, state)))
  {
  }

  lemma MarkingKeeps(c: Chain, l: Ledger, vin: TxPoint, voutMarked: bool)
    requires LedgerOk(c, l) && MarkingOk(l.points, vin, voutMarked)
    ensures var points' := MarkSpent(l.points, if voutMarked then KeyOf(vin) else SpentKey(vin));
            && LedgerOk(c, l.(points := points')) && Grows(l.points, points') && MarkingOk(points', vin, true)
  {
    hide StoreOk, MarksOk, InfosOk, MarkSpent, Grows, SameRows;
    var key := KeyOf(vin);
    ContentKeepsKeys(l.points[key], vin);
    assert IsSpent(l.points, SpentKey(vin)) by {
      assert SpentKey(l.points[key]) == SpentKey(vin);
    }
    var k := if voutMarked then KeyOf(vin) else SpentKey(vin);
    MarkKeeps(c, l.points, k);
    GrowsKeepsInfos(c, l, MarkSpent(l.points, k));
    GrowsKeepsWorker(c, l.points, MarkSpent(l.points, k), Marking(vin, voutMarked));
  }

  lemma AdvanceKeeps(c: Chain, l: Ledger, wk: Worker)
    requires LedgerOk(c, l) && WorkerOk(c, l.points, wk)
    ensures var (l', next) := AdvanceWorker(l, wk);
            && LedgerOk(c, l') && Grows(l.points, l'.points)
            && (next.Some? ==> WorkerOk(c, l'.points, next.value))
  {
    hide LedgerOk, ParsingOk, InsertingOk, MarkingOk, HasAll, AdvanceParsing, SetState, AddPoint, MarkSpent, Points;
    match wk
    case Parsing(tx, ts, i, scan, stage) => ParsingKeeps(c, l, tx, ts, i, scan, stage);
    case Inserting(tx, ts, rows, k) =>
      InsertingBound(c, l.points, tx, ts, rows, k);
      if k < |rows| {
        InsertingKeeps(c, l, tx, ts, rows, k);
      } else {
        InsertedAll(c, l.points, tx, ts, rows);
      }
    case Finishing(tx, state) => FinishingKeeps(c, l, tx, state);
    case Marking(vin, voutMarked) => MarkingKeeps(c, l, vin, voutMarked);
  }

  lemma InsertingBound(c: Chain, points: map<Key, TxPoint>, tx: MsgTx, ts: int, rows: seq<TxPoint>, k: nat)
    requires InsertingOk(c, points, tx, ts, rows, k)
    ensures k <= |rows| && ChainTx(c, tx)
  {
    hide Meaning;
  }

  lemma PruneStarts(c: Chain, l: Ledger, key: Key)
    requires LedgerOk(c, l) && key in l.points && key.kind == Vin
    ensures WorkerOk(c, l.points, Marking(l.points[key], false))
  {
    assert RowOk(c, key, l.points[key]);
  }

  lemma AdvanceStepKeeps(c: Chain, s: System, w: nat)
    requires SystemOk(c, s) && w in s.workers
    ensures SystemOk(c, Apply(c, s, Advance(w)))
    ensures Grows(s.ledger.points, Apply(c, s, Advance(w)).ledger.points)
  {
    hide LedgerOk, WorkerOk, AdvanceWorker, Grows;
    assert WorkerOk(c, s.ledger.points, s.workers[w]);
    AdvanceKeeps(c, s.ledger, s.workers[w]);
    GrowsKeepsWorkers(c, s.ledger.points, AdvanceWorker(s.ledger, s.workers[w]).0.points, s.workers);
  }

  lemma RecordKeeps(c: Chain, l: Ledger, id: Txid, height: int)
    requires LedgerOk(c, l) && id in c.txs
    ensures LedgerOk(c, l.(infos := AddInfo(l.infos, c.txs[id], height)))
  {
    hide StoreOk, MarksOk, HasAll, Points;
  }

  lemma JoinKeeps(c: Chain, points: map<Key, TxPoint>, workers: map<nat, Worker>, w: nat, wk: Worker)
    requires WorkersOk(c, points, workers) && WorkerOk(c, points, wk)
    ensures WorkersOk(c, points, workers[w := wk])
  {
    hide WorkerOk;
  }

  lemma StartIsOk(c: Chain, points: map<Key, TxPoint>, id: Txid, ts: int)
    requires id in c.txs
    ensures WorkerOk(c, points, Parsing(c.txs[id], ts, 0, NO_VINS, FirstRead))
  {
  }

  lemma ApplyKeeps(c: Chain, s: System, step: Step)
    requires SystemOk(c, s)
    ensures SystemOk(c, Apply(c, s, step))
    ensures Grows(s.ledger.points, Apply(c, s, step).ledger.points)
  {
    hide LedgerOk, WorkerOk, AdvanceWorker, AddInfo;
    match step
    case Record(id, height) =>
      if id in c.txs {
        RecordKeeps(c, s.ledger, id, height);
      }
    case Start(w, id, ts) =>
      if id in c.txs {
        StartIsOk(c, s.ledger.points, id, ts);
        JoinKeeps(c, s.ledger.points, s.workers, w, Parsing(c.txs[id], ts, 0, NO_VINS, FirstRead));
      }
    case Prune(w, key) =>
      if key in s.ledger.points && key.kind == Vin {
        PruneStarts(c, s.ledger, key);
        JoinKeeps(c, s.ledger.points, s.workers, w, Marking(s.ledger.points[key], false));
      }
    case Advance(w) =>
      if w in s.workers {
        AdvanceStepKeeps(c, s, w);
      }
    case Stop(w) =>
  }

  lemma {:induction false} RunKeeps(c: Chain, s: System, steps: seq<Step>)
    requires SystemOk(c, s)
    ensures SystemOk(c, Run(c, s, steps))
    ensures Grows(s.ledger.points, Run(c, s, steps).ledger.points)
    decreases |steps|
  {
    if steps != [] {
      ApplyKeeps(c, s, steps[0]);
      RunKeeps(c, Apply(c, s, steps[0]), steps[1..]);
    }
  }

  lemma EmptyOk(c: Chain)
    ensures SystemOk(c, EMPTY)
  {
  }

  ghost predicate Reachable(c: Chain, s: System) {
    exists steps :: Run(c, EMPTY, steps) == s
  }

  lemma ReachableOk(c: Chain, s: System)
    requires Reachable(c, s)
    ensures SystemOk(c, s)
  {
    var steps :| Run(c, EMPTY, steps) == s;
    EmptyOk(c);
    RunKeeps(c, EMPTY, steps);
  }

  // ----- main results

  /**
   * Whatever the interleaving, each stored row is, up to timestamp and spent mark, a row of its
   * transaction's meaning, and a CLOSED transaction has every row of its meaning stored.
   */
  lemma StoredRowsAreMeaning(c: Chain, s: System, k: Key)
    requires Reachable(c, s)
    ensures k in s.ledger.points ==> k.txid in c.txs && Content(s.ledger.points[k]) in Points(c, k.txid)
    ensures IsClosed(s.ledger, k.txid) ==>
              k.txid in c.txs
              && (k in s.ledger.points <==> exists p | p in Points(c, k.txid) :: KeyOf(p) == k)
  {
    ReachableOk(c, s);
    if k in s.ledger.points {
      assert RowOk(c, k, s.ledger.points[k]);
      ContentKeepsKeys(s.ledger.points[k], Content(s.ledger.points[k]));
    }
  }

  /** Two stores agree on row `k`: both lack it, or both hold it with the same content. */
  ghost predicate SameAt(points: map<Key, TxPoint>, points': map<Key, TxPoint>, k: Key) {
    (k in points <==> k in points') && (k in points ==> Content(points[k]) == Content(points'[k]))
  }

  /** Two runs that closed the same transaction hold the same rows for it, whatever else they did. */
  lemma OrderIndependence(c: Chain, s: System, s': System, id: Txid)
    requires Reachable(c, s) && Reachable(c, s')
    requires IsClosed(s.ledger, id) && IsClosed(s'.ledger, id)
    ensures forall k: Key | k.txid == id :: SameAt(s.ledger.points, s'.ledger.points, k)
  {
    hide Reachable, LedgerOk, SameAt;
    ReachableOk(c, s);
    ReachableOk(c, s');
    forall k: Key | k.txid == id ensures SameAt(s.ledger.points, s'.ledger.points, k) {
      ClosedAgree(c, s.ledger, s'.ledger, k);
    }
  }

  lemma ClosedAgree(c: Chain, l: Ledger, l': Ledger, k: Key)
    requires LedgerOk(c, l) && LedgerOk(c, l') && IsClosed(l, k.txid) && IsClosed(l', k.txid)
    ensures SameAt(l.points, l'.points, k)
  {
    hide Points, MarksOk;
    if k in l.points {
      StoredIsPoint(c, l, k);
    }
    if k in l'.points {
      StoredIsPoint(c, l', k);
    }
    if k in l.points && k in l'.points {
      StoredSame(c, l, l', k);
    }
  }

  lemma StoredIsPoint(c: Chain, l: Ledger, k: Key)
    requires LedgerOk(c, l) && k in l.points
    ensures k.txid in c.txs && Content(l.points[k]) in Points(c, k.txid) && KeyOf(Content(l.points[k])) == k
  {
    hide Points, MarksOk;
    assert RowOk(c, k, l.points[k]);
    ContentKeepsKeys(l.points[k], Content(l.points[k]));
  }

  lemma StoredSame(c: Chain, l: Ledger, l': Ledger, k: Key)
    requires LedgerOk(c, l) && LedgerOk(c, l') && k in l.points && k in l'.points
    ensures Content(l.points[k]) == Content(l'.points[k])
  {
    assert RowOk(c, k, l.points[k]) && RowOk(c, k, l'.points[k]);
    ContentKeepsKeys(l.points[k], Content(l.points[k]));
    ContentKeepsKeys(l'.points[k], Content(l'.points[k]));
    SameKeySameRow(c, k.txid, Content(l.points[k]), Content(l'.points[k]));
  }

  /**
   * The double check is sound: a worker whose third read misses, and so reports "illegal vin",
   * does so only for an outpoint its parent's meaning really lacks.
   */
  lemma DoubleCheckSound(c: Chain, s: System, w: nat)
    requires Reachable(c, s) && w in s.workers && s.workers[w].Parsing? && s.workers[w].stage == SecondRead
    ensures var wk := s.workers[w];
            && wk.i < |wk.tx.ins|
            && (VoutKey(wk.tx.ins[wk.i].prev) !in s.ledger.points <==> Holds(c, wk.tx.ins[wk.i].prev) == IllegalVin)
  {
    ReachableOk(c, s);
    var wk := s.workers[w];
    assert WorkerOk(c, s.ledger.points, wk);
    var op := wk.tx.ins[wk.i].prev;
    if VoutKey(op) in s.ledger.points {
      StoredVout(c, s.ledger.points, op);
    } else {
      AbsentVout(c, s.ledger.points, op);
    }
  }

  // ----- an undisturbed call is one of the runs

  lemma {:induction false} RunConcat(c: Chain, s: System, a: seq<Step>, b: seq<Step>)
    ensures Run(c, s, a + b) == Run(c, Run(c, s, a), b)
    decreases |a|
  {
    if a == [] {
      assert a + b == b;
    } else {
      assert (a + b)[1..] == a[1..] + b;
      RunConcat(c, Apply(c, s, a[0]), a[1..], b);
    }
  }

  ghost function With(s: System, l: Ledger, w: nat, wk: Worker): System {
    System(l, s.workers[w := wk])
  }

  lemma OneAdvance(c: Chain, s: System, l: Ledger, w: nat, wk: Worker)
    ensures var (l', next) := AdvanceWorker(l, wk);
            next.Some? ==> Run(c, With(s, l, w, wk), [Advance(w)]) == With(s, l', w, next.value)
    ensures var (l', next) := AdvanceWorker(l, wk);
            next.None? && w !in s.workers ==> Run(c, With(s, l, w, wk), [Advance(w)]) == System(l', s.workers)
  {
    var s0 := With(s, l, w, wk);
    assert Run(c, s0, [Advance(w)]) == Apply(c, s0, Advance(w)) by {
      assert [Advance(w)][1..] == [];
    }
    assert s0.workers[w] == wk;
    var (l', next) := AdvanceWorker(l, wk);
    if next.Some? {
      assert s0.workers[w := next.value] == s.workers[w := next.value];
    } else if w !in s.workers {
      assert s0.workers - {w} == s.workers;
    }
  }

  lemma {:induction false} ScanStaysUnknown(l: Ledger, tx: MsgTx, ts: int, n: nat, m: nat)
    requires n <= m <= |tx.ins| && ScanVins(l, tx, ts, n).None?
    ensures ScanVins(l, tx, ts, m).None?
    decreases m
  {
    if n < m {
      ScanStaysUnknown(l, tx, ts, n, m - 1);
    }
  }

  /** Where an undisturbed parse ends up. */
  ghost function Parsed(l: Ledger, tx: MsgTx, ts: int): Worker {
    match Parse(l, tx, ts)
    case None => Finishing(tx, Open)
    case Some(inv) => Inserting(tx, ts, Rows(inv), 0)
  }

  /** Reading input `i` alone: one read if the row is there, else the state, else the row again. */
  lemma ReadInput(c: Chain, s: System, l: Ledger, w: nat, tx: MsgTx, ts: int, i: nat, scan: VinScan)
    returns (steps: seq<Step>)
    requires i < |tx.ins| && ScanVins(l, tx, ts, i) == Some(scan)
    ensures Run(c, With(s, l, w, Parsing(tx, ts, i, scan, FirstRead)), steps) ==
            match ScanVins(l, tx, ts, i + 1)
            case None => With(s, l, w, Finishing(tx, Open))
            case Some(scan') => With(s, l, w, Parsing(tx, ts, i + 1, scan', FirstRead))
  {
    var first := Parsing(tx, ts, i, scan, FirstRead);
    steps := [Advance(w)];
    OneAdvance(c, s, l, w, first);
    if IsBadgeVin(tx.ins[i]) && VoutKey(tx.ins[i].prev) !in l.points {
      var second := Parsing(tx, ts, i, scan, StateRead);
      OneAdvance(c, s, l, w, second);
      RunConcat(c, With(s, l, w, first), steps, [Advance(w)]);
      steps := steps + [Advance(w)];
      if IsClosed(l, tx.ins[i].prev.txid) {
        OneAdvance(c, s, l, w, Parsing(tx, ts, i, scan, SecondRead));
        RunConcat(c, With(s, l, w, first), steps, [Advance(w)]);
        steps := steps + [Advance(w)];
      }
    }
  }

  lemma {:induction false} RunParsing(c: Chain, s: System, l: Ledger, w: nat, tx: MsgTx, ts: int, i: nat, scan: VinScan)
    returns (steps: seq<Step>)
    requires i <= |tx.ins| && ScanVins(l, tx, ts, i) == Some(scan)
    ensures Run(c, With(s, l, w, Parsing(tx, ts, i, scan, FirstRead)), steps) == With(s, l, w, Parsed(l, tx, ts))
    decreases |tx.ins| - i
  {
    var s0 := With(s, l, w, Parsing(tx, ts, i, scan, FirstRead));
    if i == |tx.ins| {
      steps := [Advance(w)];
      OneAdvance(c, s, l, w, Parsing(tx, ts, i, scan, FirstRead));
    } else {
      steps := ReadInput(c, s, l, w, tx, ts, i, scan);
      if ScanVins(l, tx, ts, i + 1).None? {
        ScanStaysUnknown(l, tx, ts, i + 1, |tx.ins|);
      } else {
        var rest := RunParsing(c, s, l, w, tx, ts, i + 1, ScanVins(l, tx, ts, i + 1).value);
        RunConcat(c, s0, steps, rest);
        steps := steps + rest;
      }
    }
  }

  lemma {:induction false} RunInserting(c: Chain, s: System, l: Ledger, w: nat, tx: MsgTx, ts: int, rows: seq<TxPoint>,
    k: nat) returns (steps: seq<Step>)
    requires k <= |rows|
    ensures Run(c, With(s, l, w, Inserting(tx, ts, rows, k)), steps) ==
            With(s, l.(points := AddPoints(l.points, rows[k..])), w, Finishing(tx, Closed))
    decreases |rows| - k
  {
    var wk := Inserting(tx, ts, rows, k);
    OneAdvance(c, s, l, w, wk);
    steps := [Advance(w)];
    if k < |rows| {
      var l' := l.(points := AddPoint(l.points, rows[k]));
      var rest := RunInserting(c, s, l', w, tx, ts, rows, k + 1);
      RunConcat(c, With(s, l, w, wk), steps, rest);
      steps := steps + rest;
      assert rows[k..][1..] == rows[k + 1..];
    }
  }

  /** One ProcessMsgTx that nothing interrupts is a run of the system; so every result about runs covers it. */
  lemma ProcessIsRun(c: Chain, s: System, w: nat, id: Txid, ts: int) returns (steps: seq<Step>)
    requires id in c.txs && w !in s.workers
    ensures Run(c, s, steps) == System(Process(s.ledger, c.txs[id], ts), s.workers)
  {
    var tx, l := c.txs[id], s.ledger;
    steps := [Start(w, id, ts)];
    assert Run(c, s, steps) == With(s, l, w, Parsing(tx, ts, 0, NO_VINS, FirstRead)) by {
      assert steps[1..] == [];
    }
    var parse := RunParsing(c, s, l, w, tx, ts, 0, NO_VINS);
    RunConcat(c, s, steps, parse);
    steps := steps + parse;
    if Parse(l, tx, ts).Some? {
      var rows := Rows(Parse(l, tx, ts).value);
      var insert := RunInserting(c, s, l, w, tx, ts, rows, 0);
      assert rows[0..] == rows;
      RunConcat(c, s, steps, insert);
      steps := steps + insert;
      l := l.(points := AddPoints(l.points, rows));
    }
    var last := Finishing(tx, if Parse(s.ledger, tx, ts).Some? then Closed else Open);
    OneAdvance(c, s, l, w, last);
    RunConcat(c, s, steps, [Advance(w)]);
    steps := steps + [Advance(w)];
  }

  /** So an undisturbed call keeps the ledger invariant. */
  lemma ProcessKeeps(c: Chain, l: Ledger, tx: MsgTx, ts: int)
    requires LedgerOk(c, l) && ChainTx(c, tx)
    ensures LedgerOk(c, Process(l, tx, ts))
    ensures Grows(l.points, Process(l, tx, ts).points)
  {
    var s := System(l, map[]);
    var steps := ProcessIsRun(c, s, 0, tx.txid, ts);
    RunKeeps(c, s, steps);
  }
}
