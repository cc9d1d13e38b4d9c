/** What every reachable store satisfies, and how a single write keeps it. */
module Store {
  import opened Model
  import opened Chains

  /** The row a vin row spends. */
  function SpentKey(p: TxPoint): Key {
    Key(p.preTxid, p.preIndex, Vout)
  }

  ghost predicate HasAll(points: map<Key, TxPoint>, ps: seq<TxPoint>) {
    forall p | p in ps :: KeyOf(p) in points
  }

  ghost predicate HasSpent(points: map<Key, TxPoint>, vins: seq<TxPoint>) {
    forall p | p in vins :: SpentKey(p) in points
  }

  ghost predicate RowOk(c: Chain, k: Key, p: TxPoint) {
    KeyOf(p) == k && k.txid in c.txs && Content(p) in Points(c, k.txid)
  }

  /** Every stored row is a row of its transaction's meaning. */
  ghost predicate Faithful(c: Chain, points: map<Key, TxPoint>) {
    forall k | k in points :: RowOk(c, k, points[k])
  }

  /** A transaction with a stored vout has all its vins stored. */
  ghost predicate VinsFirst(c: Chain, points: map<Key, TxPoint>) {
    forall k | k in points && k.kind == Vout && k.txid in c.txs :: HasAll(points, Vins(c, k.txid))
  }

  /** A stored vin's spent vout is stored. */
  ghost predicate ParentsFirst(points: map<Key, TxPoint>) {
    forall k | k in points && k.kind == Vin :: SpentKey(points[k]) in points
  }

  ghost predicate StoreOk(c: Chain, points: map<Key, TxPoint>) {
    Faithful(c, points) && VinsFirst(c, points) && ParentsFirst(points)
  }

  predicate Marked(points: map<Key, TxPoint>, k: Key)
    requires k in points
  {
    points[k].state == PrettySureSpent
  }

  ghost predicate IsSpent(points: map<Key, TxPoint>, k: Key) {
    exists j | j in points && j.kind == Vin :: SpentKey(points[j]) == k
  }

  /** A vin marked spent has its vout marked spent, and a marked vout is spent. */
  ghost predicate MarksOk(points: map<Key, TxPoint>) {
    && (forall k | k in points && k.kind == Vin && Marked(points, k) ::
          SpentKey(points[k]) in points && Marked(points, SpentKey(points[k])))
    && (forall k | k in points && k.kind == Vout && Marked(points, k) :: IsSpent(points, k))
  }

  ghost predicate InfosOk(c: Chain, l: Ledger) {
    forall id | id in l.infos ::
      && id in c.txs && l.infos[id].msgTx == c.txs[id]
      && (l.infos[id].state == Closed ==> HasAll(l.points, Points(c, id)))
  }

  ghost predicate LedgerOk(c: Chain, l: Ledger) {
    StoreOk(c, l.points) && MarksOk(l.points) && InfosOk(c, l)
  }

  /** `points'` holds every row of `points`, at most marked spent since. */
  ghost predicate Grows(points: map<Key, TxPoint>, points': map<Key, TxPoint>) {
    forall k | k in points ::
      && k in points'
      && Content(points'[k]) == Content(points[k])
      && (Marked(points, k) ==> Marked(points', k))
  }

  // ----- lookups

  /** A stored vout is what the chain says its outpoint holds. */
  lemma StoredVout(c: Chain, points: map<Key, TxPoint>, op: OutPoint)
    requires Faithful(c, points) && VoutKey(op) in points
    ensures Holds(c, op) == Found(Content(points[VoutKey(op)]))
  {
    var p := points[VoutKey(op)];
    assert RowOk(c, VoutKey(op), p);
    PointsAreKeyed(c, op.txid);
    assert Content(p) in Vouts(c, op.txid);
    RowFound(c, op.txid, Content(p));
  }

  /** Once all rows of a transaction are stored, an absent vout is one it does not have. */
  lemma AbsentVout(c: Chain, points: map<Key, TxPoint>, op: OutPoint)
    requires op.txid in c.txs && HasAll(points, Points(c, op.txid)) && VoutKey(op) !in points
    ensures Holds(c, op) == IllegalVin
  {
    if Holds(c, op).Found? {
      FoundRow(c, op);
    }
  }

  // ----- single writes

  lemma AddPointGrows(points: map<Key, TxPoint>, p: TxPoint)
    ensures Grows(points, AddPoint(points, p))
    ensures KeyOf(p) in AddPoint(points, p)
  {
  }

  lemma AddPointFaithful(c: Chain, points: map<Key, TxPoint>, id: Txid, p: TxPoint)
    requires Faithful(c, points) && id in c.txs && Content(p) in Points(c, id)
    ensures Faithful(c, AddPoint(points, p)) && p.txid == id
  {
    PointsAreKeyed(c, id);
    assert Content(p).txid == id;
    assert RowOk(c, KeyOf(p), p);
  }

  lemma AddPointOrdered(c: Chain, points: map<Key, TxPoint>, p: TxPoint)
    requires VinsFirst(c, points) && ParentsFirst(points) && p.txid in c.txs
    requires p.kind == Vin ==> SpentKey(p) in points
    requires p.kind == Vout ==> HasAll(points, Vins(c, p.txid))
    ensures VinsFirst(c, AddPoint(points, p)) && ParentsFirst(AddPoint(points, p))
  {
    var points' := AddPoint(points, p);
    forall k | k in points' && k.kind == Vout && k.txid in c.txs ensures HasAll(points', Vins(c, k.txid)) {
      assert HasAll(points, Vins(c, k.txid));
    }
  }

  lemma AddPointMarks(points: map<Key, TxPoint>, p: TxPoint)
    requires MarksOk(points) && p.state == MayBeUnspent
    ensures MarksOk(AddPoint(points, p))
  {
    var points' := AddPoint(points, p);
    forall k | k in points' && k.kind == Vout && Marked(points', k) ensures IsSpent(points', k) {
      assert k in points && Marked(points, k);
      var j :| j in points && j.kind == Vin && SpentKey(points[j]) == k;
      assert j in points' && SpentKey(points'[j]) == k;
    }
  }

  /** Inserting the next row of a meaning, in order, keeps the store invariants. */
  lemma AddPointKeeps(c: Chain, points: map<Key, TxPoint>, id: Txid, p: TxPoint)
    requires StoreOk(c, points) && MarksOk(points)
    requires id in c.txs && Content(p) in Points(c, id) && p.state == MayBeUnspent
    requires p.kind == Vin ==> SpentKey(p) in points
    requires p.kind == Vout ==> HasAll(points, Vins(c, id))
    ensures StoreOk(c, AddPoint(points, p)) && MarksOk(AddPoint(points, p))
  {
    AddPointFaithful(c, points, id, p);
    AddPointOrdered(c, points, p);
    AddPointMarks(points, p);
  }

  /** SetTxPointState on one row. */
  function MarkSpent(points: map<Key, TxPoint>, k: Key): map<Key, TxPoint> {
    if k in points then points[k := points[k].(state := PrettySureSpent)] else points
  }

  ghost predicate SameRows(points: map<Key, TxPoint>, points': map<Key, TxPoint>) {
    points.Keys == points'.Keys && forall k | k in points :: Content(points'[k]) == Content(points[k])
  }

  lemma ContentKeepsKeys(p: TxPoint, q: TxPoint)
    requires Content(p) == Content(q)
    ensures KeyOf(p) == KeyOf(q) && SpentKey(p) == SpentKey(q)
  {
  }

  lemma SameRowsKeepStore(c: Chain, points: map<Key, TxPoint>, points': map<Key, TxPoint>)
    requires StoreOk(c, points) && SameRows(points, points')
    ensures StoreOk(c, points')
  {
    forall k | k in points' ensures RowOk(c, k, points'[k]) {
      assert RowOk(c, k, points[k]);
      ContentKeepsKeys(points[k], points'[k]);
    }
    forall k | k in points' && k.kind == Vout && k.txid in c.txs ensures HasAll(points', Vins(c, k.txid)) {
      assert HasAll(points, Vins(c, k.txid));
    }
    forall k | k in points' && k.kind == Vin ensures SpentKey(points'[k]) in points' {
      ContentKeepsKeys(points[k], points'[k]);
    }
  }

  lemma MarkMarks(points: map<Key, TxPoint>, k: Key)
    requires MarksOk(points) && k in points
    requires k.kind == Vout ==> IsSpent(points, k)
    requires k.kind == Vin ==> SpentKey(points[k]) in points && Marked(points, SpentKey(points[k]))
    ensures MarksOk(MarkSpent(points, k))
  {
    var points' := MarkSpent(points, k);
    forall j | j in points' && j.kind == Vout && Marked(points', j) ensures IsSpent(points', j) {
      assert IsSpent(points, j);
      var i :| i in points && i.kind == Vin && SpentKey(points[i]) == j;
      assert i in points' && SpentKey(points'[i]) == j;
    }
  }

  /** Marking a vout that a stored vin spends, or a vin whose vout is marked, keeps the invariants. */
  lemma MarkKeeps(c: Chain, points: map<Key, TxPoint>, k: Key)
    requires StoreOk(c, points) && MarksOk(points) && k in points
    requires k.kind == Vout ==> IsSpent(points, k)
    requires k.kind == Vin ==> SpentKey(points[k]) in points && Marked(points, SpentKey(points[k]))
    ensures StoreOk(c, MarkSpent(points, k)) && MarksOk(MarkSpent(points, k))
    ensures Grows(points, MarkSpent(points, k)) && SameRows(points, MarkSpent(points, k))
    ensures Marked(MarkSpent(points, k), k)
  {
    MarkMarks(points, k);
    MarkGrows(points, k);
    SameRowsKeepStore(c, points, MarkSpent(points, k));
  }

  lemma MarkGrows(points: map<Key, TxPoint>, k: Key)
    requires k in points
    ensures Grows(points, MarkSpent(points, k)) && SameRows(points, MarkSpent(points, k))
    ensures Marked(MarkSpent(points, k), k)
  {
  }

  lemma GrowsKeepsInfos(c: Chain, l: Ledger, points': map<Key, TxPoint>)
    requires InfosOk(c, l) && Grows(l.points, points')
    ensures InfosOk(c, l.(points := points'))
  {
    forall id | id in l.infos && l.infos[id].state == Closed ensures HasAll(points', Points(c, id)) {
      assert HasAll(l.points, Points(c, id));
    }
  }
}
