/** SetSpent: which rows it may mark, and why marking them keeps the ledger invariant. */
module Pruning {
  import opened Model
  import opened Chains
  import opened Store
  import opened Workers

  /** ForearchUnspentVinTxPoint: an unmarked vin row more than an hour old. */
  predicate IsCandidate(points: map<Key, TxPoint>, now: int, k: Key)
    requires k in points
  {
    k.kind == Vin && points[k].state == MayBeUnspent && points[k].timestamp < now - 60 * 60
  }

  /** The spending transaction is confirmed by more than 20 blocks. */
  predicate IsDeep(infos: map<Txid, TxInfo>, currentHeight: int, txid: Txid) {
    txid in infos && infos[txid].height != -1 && currentHeight - infos[txid].height > 20
  }

  /**
   * SetSpent marks row `k`: an unmarked vin more than an hour old whose transaction lies more than 20 blocks deep, or
   * the vout such a vin spends.
   */
  ghost predicate Prunes(points: map<Key, TxPoint>, infos: map<Txid, TxInfo>, currentHeight: int, now: int, k: Key) {
    exists j | && j in points && j.kind == Vin && points[j].state == MayBeUnspent && points[j].timestamp < now - 3600
               && j.txid in infos && infos[j.txid].height != -1 && infos[j.txid].height + 20 < currentHeight ::
      k == j || k == SpentKey(points[j])
  }

  lemma {:induction false} PruneOne(c: Chain, l: Ledger, rows: map<Key, TxPoint>, k: Key)
    requires LedgerOk(c, l) && SameRows(rows, l.points) && k in rows && k.kind == Vin
    ensures SpentKey(rows[k]) in l.points && SpentKey(l.points[k]) == SpentKey(rows[k])
    ensures var points' := MarkSpent(MarkSpent(l.points, SpentKey(rows[k])), k);
            LedgerOk(c, l.(points := points')) && SameRows(l.points, points') && Grows(l.points, points')
  {
    hide LedgerOk, MarkSpent, MarkingOk;
    PruneStarts(c, l, k);
    StartsStored(c, l, l.points[k]);
    ContentKeepsKeys(rows[k], l.points[k]);
    var vin := l.points[k];
    assert KeyOf(vin) == k by { KeyOfStored(c, l, k); }
    MarkingKeeps(c, l, vin, false);
    var mid := l.(points := MarkSpent(l.points, SpentKey(vin)));
    MarkingKeeps(c, mid, vin, true);
    TwoMarksSame(l.points, SpentKey(vin), k);
  }

  lemma StartsStored(c: Chain, l: Ledger, vin: TxPoint)
    requires WorkerOk(c, l.points, Marking(vin, false))
    ensures MarkingOk(l.points, vin, false) && SpentKey(vin) in l.points
  {
  }

  lemma TwoMarksSame(points: map<Key, TxPoint>, a: Key, b: Key)
    ensures var points' := MarkSpent(MarkSpent(points, a), b); SameRows(points, points') && Grows(points, points')
  {
  }

  lemma KeyOfStored(c: Chain, l: Ledger, k: Key)
    requires LedgerOk(c, l) && k in l.points
    ensures KeyOf(l.points[k]) == k
  {
    assert RowOk(c, k, l.points[k]);
  }

  /** Only prunable rows have been marked since `rows`. */
  ghost predicate OnlyPruned(rows: map<Key, TxPoint>, points: map<Key, TxPoint>, infos: map<Txid, TxInfo>,
    currentHeight: int, now: int)
  {
    forall k | k in points && k in rows && Marked(points, k) ::
      Marked(rows, k) || Prunes(rows, infos, currentHeight, now, k)
  }

  /** Candidate `k` is marked, and so is the vout it spends. */
  ghost predicate Pruned(rows: map<Key, TxPoint>, points: map<Key, TxPoint>, k: Key)
    requires k in rows && k in points
  {
    Marked(points, k) && (SpentKey(rows[k]) in points ==> Marked(points, SpentKey(rows[k])))
  }

  /** While SetSpent runs: only prunable rows have been marked, and all of them outside `todo` have been. */
  ghost predicate PruneProgress(rows: map<Key, TxPoint>, points: map<Key, TxPoint>, infos: map<Txid, TxInfo>,
    currentHeight: int, now: int, todo: set<Key>)
  {
    && (forall k | k in todo :: k in rows && IsCandidate(rows, now, k))
    && OnlyPruned(rows, points, infos, currentHeight, now)
    && (forall k | k in rows && k in points && IsCandidate(rows, now, k) && k !in todo
      && IsDeep(infos, currentHeight, k.txid) ::
          Pruned(rows, points, k))
  }

  lemma PruneBegins(rows: map<Key, TxPoint>, infos: map<Txid, TxInfo>, currentHeight: int, now: int)
    ensures PruneProgress(rows, rows, infos, currentHeight, now, set k | k in rows && IsCandidate(rows, now, k))
  {
  }

  lemma PruneStops(rows: map<Key, TxPoint>, points: map<Key, TxPoint>, infos: map<Txid, TxInfo>, currentHeight: int,
    now: int, todo: set<Key>, k: Key)
    requires PruneProgress(rows, points, infos, currentHeight, now, todo) && rows.Keys == points.Keys && k in todo
    ensures k in points
    ensures forall j | j in points && Marked(points, j) :: Marked(rows, j) || Prunes(rows, infos, currentHeight, now, j)
  {
  }

  lemma PruneSkips(rows: map<Key, TxPoint>, points: map<Key, TxPoint>, infos: map<Txid, TxInfo>, currentHeight: int,
    now: int, todo: set<Key>, k: Key)
    requires PruneProgress(rows, points, infos, currentHeight, now, todo) && k in todo
             && !IsDeep(infos, currentHeight, k.txid)
    ensures PruneProgress(rows, points, infos, currentHeight, now, todo - {k})
  {
  }

  lemma PruneMarks(rows: map<Key, TxPoint>, points: map<Key, TxPoint>, infos: map<Txid, TxInfo>, currentHeight: int,
    now: int, todo: set<Key>, k: Key)
    requires PruneProgress(rows, points, infos, currentHeight, now, todo) && rows.Keys == points.Keys
    requires k in todo && IsDeep(infos, currentHeight, k.txid)
    ensures k in rows && k.kind == Vin
    ensures PruneProgress(rows, MarkSpent(MarkSpent(points, SpentKey(rows[k])), k), infos, currentHeight, now,
            todo - {k})
  {
    hide MarkSpent, IsDeep, OnlyPruned, Pruned, Marked;
    MarksOnlyPrunable(rows, points, infos, currentHeight, now, k);
    TwoMarks(points, SpentKey(rows[k]), k);
    forall j | j in rows && (j == k || Pruned(rows, points, j))
      ensures Pruned(rows, MarkSpent(MarkSpent(points, SpentKey(rows[k])), k), j)
    {
      StaysPruned(rows, points, k, j);
    }
  }

  lemma MarksOnlyPrunable(rows: map<Key, TxPoint>, points: map<Key, TxPoint>, infos: map<Txid, TxInfo>,
    currentHeight: int, now: int, k: Key)
    requires OnlyPruned(rows, points, infos, currentHeight, now) && rows.Keys == points.Keys
    requires k in rows && IsCandidate(rows, now, k) && IsDeep(infos, currentHeight, k.txid)
    ensures OnlyPruned(rows, MarkSpent(MarkSpent(points, SpentKey(rows[k])), k), infos, currentHeight, now)
  {
    TwoMarks(points, SpentKey(rows[k]), k);
    assert Prunes(rows, infos, currentHeight, now, k) && Prunes(rows, infos, currentHeight, now, SpentKey(rows[k]));
    hide MarkSpent, Prunes, IsCandidate, IsDeep;
  }

  lemma StaysPruned(rows: map<Key, TxPoint>, points: map<Key, TxPoint>, k: Key, j: Key)
    requires rows.Keys == points.Keys && k in rows && j in rows && (j == k || Pruned(rows, points, j))
    ensures j in MarkSpent(MarkSpent(points, SpentKey(rows[k])), k)
    ensures Pruned(rows, MarkSpent(MarkSpent(points, SpentKey(rows[k])), k), j)
  {
    TwoMarks(points, SpentKey(rows[k]), k);
    hide MarkSpent;
  }

  lemma TwoMarks(points: map<Key, TxPoint>, a: Key, b: Key)
    ensures var points' := MarkSpent(MarkSpent(points, a), b);
            && points'.Keys == points.Keys
            && (forall k | k in points && k != a && k != b :: points'[k] == points[k])
            && (forall k | k in points && (k == a || k == b) :: Marked(points', k))
  {
  }

  lemma PruneEnds(rows: map<Key, TxPoint>, points: map<Key, TxPoint>, infos: map<Txid, TxInfo>, currentHeight: int,
    now: int)
    requires PruneProgress(rows, points, infos, currentHeight, now, {}) && rows.Keys == points.Keys
    ensures forall k | k in points && Marked(points, k) :: Marked(rows, k) || Prunes(rows, infos, currentHeight, now, k)
    ensures forall k | k in points && Prunes(rows, infos, currentHeight, now, k) :: Marked(points, k)
  {
  }
}
