/**
 * What a transaction means, independently of any store: the recursive reading of the
 * interpreter over the acyclic spend graph.
 */
module Chains {
  import opened Int64
  import opened Script
  import opened Model

  /** The transactions that exist, with a rank witnessing that the spend graph is acyclic. */
  datatype RawChain = RawChain(txs: map<Txid, MsgTx>, rank: map<Txid, nat>)

  ghost predicate IsChain(c: RawChain) {
    && c.rank.Keys == c.txs.Keys
    && (forall id | id in c.txs :: c.txs[id].txid == id)
    && (forall id, i | id in c.txs && 0 <= i < |c.txs[id].ins| && c.txs[id].ins[i].prev.txid in c.txs ::
          c.rank[c.txs[id].ins[i].prev.txid] < c.rank[id])
  }

  type Chain = c: RawChain | IsChain(c) ghost witness RawChain(map[], map[])

  /** The row for output `index` among `vouts`. */
  ghost function VoutAt(vouts: seq<TxPoint>, index: nat): Lookup {
    if exists i | 0 <= i < |vouts| :: vouts[i].index == index
    then var i :| 0 <= i < |vouts| && vouts[i].index == index; Found(vouts[i])
    else IllegalVin
  }

  /** What an outpoint of an existing transaction holds. */
  ghost function RefLookup(c: Chain, op: OutPoint): (r: Lookup)
    requires op.txid in c.txs
    ensures !r.UnknownUtxo?
    decreases c.rank[op.txid], 2, 0
  {
    VoutAt(Meaning(c, op.txid, 0).vouts, op.index)
  }

  /** The vin loop read over the meanings of the parents; a parent outside the chain holds nothing. */
  ghost function RefScan(c: Chain, id: Txid, ts: int, n: nat): VinScan
    requires id in c.txs && n <= |c.txs[id].ins|
    decreases c.rank[id], 0, n
  {
    if n == 0 then NO_VINS else
    var before, vin := RefScan(c, id, ts, n - 1), c.txs[id].ins[n - 1];
    if !IsBadgeVin(vin) then before
    else ScanVin(c.txs[id], n - 1, ts, before, if vin.prev.txid in c.txs then RefLookup(c, vin.prev) else IllegalVin)
  }

  ghost function Meaning(c: Chain, id: Txid, ts: int): TxInventory
    requires id in c.txs
    decreases c.rank[id], 1, 0
  {
    FinishParse(c.txs[id], ts, RefScan(c, id, ts, |c.txs[id].ins|))
  }

  ghost function Vins(c: Chain, id: Txid): seq<TxPoint>
    requires id in c.txs
  {
    Meaning(c, id, 0).vins
  }

  ghost function Vouts(c: Chain, id: Txid): seq<TxPoint>
    requires id in c.txs
  {
    Meaning(c, id, 0).vouts
  }

  ghost function Points(c: Chain, id: Txid): seq<TxPoint>
    requires id in c.txs
  {
    Rows(Meaning(c, id, 0))
  }

  /** What any outpoint holds. */
  ghost function Holds(c: Chain, op: OutPoint): (r: Lookup)
    ensures !r.UnknownUtxo?
  {
    if op.txid in c.txs then RefLookup(c, op) else IllegalVin
  }

  // ----- vouts of a meaning

  predicate IsVoutRow(tx: MsgTx, ts: int, code: Txid, p: TxPoint) {
    && p.index < |tx.outs|
    && ParseBadgeVoutScript(tx.outs[p.index].script).Some?
    && p == NewVout(tx, p.index, ts, code, ParseBadgeVoutScript(tx.outs[p.index].script).value)
  }

  predicate IndexSorted(ps: seq<TxPoint>) {
    forall i, j | 0 <= i < j < |ps| :: ps[i].index < ps[j].index
  }

  lemma {:induction false} TakenVouts(tx: MsgTx, ts: int, code: Txid, budget: int, j: nat)
    requires j <= |tx.outs| && TakeVouts(tx, ts, code, budget, j).Some?
    ensures var vouts := TakeVouts(tx, ts, code, budget, j).value;
            && (forall p | p in vouts :: IsVoutRow(tx, ts, code, p) && p.index >= j)
            && IndexSorted(vouts)
    decreases |tx.outs| - j
  {
    hide ParseBadgeVoutScript;
    if j < |tx.outs| {
      match ParseBadgeVoutScript(tx.outs[j].script)
      case None => TakenVouts(tx, ts, code, budget, j + 1);
      case Some(out) =>
        var left := Sub64(budget, out.value);
        TakenVouts(tx, ts, code, left, j + 1);
        var p, rest := NewVout(tx, j, ts, code, out), TakeVouts(tx, ts, code, left, j + 1).value;
        assert IsVoutRow(tx, ts, code, p);
        assert TakeVouts(tx, ts, code, budget, j).value == [p] + rest;
    }
  }

  lemma BadgeValueRange(script: seq<byte>)
    requires ParseBadgeVoutScript(script).Some?
    ensures 0 <= ParseBadgeVoutScript(script).value.value <= MAX_INT64
  {
    var out := ParseBadgeVoutScript(script).value;
    ParserInvertsPrinter(script, out.address, out.value);
  }

  /** Every row of a meaning's vouts is the badge output at its index, under one code. */
  lemma VoutRows(c: Chain, id: Txid, ts: int)
    requires id in c.txs
    ensures var inv := Meaning(c, id, ts);
            && (forall p | p in inv.vouts ::
                  IsVoutRow(c.txs[id], ts, BadgeCodeOf(c.txs[id], inv.vins), p) && 0 <= p.value <= MAX_INT64)
            && IndexSorted(inv.vouts)
  {
    var tx, scan := c.txs[id], RefScan(c, id, ts, |c.txs[id].ins|);
    var code, budget := BadgeCodeOf(tx, scan.vins), BudgetOf(scan.vins);
    if TakeVouts(tx, ts, code, budget, 0).Some? {
      TakenVouts(tx, ts, code, budget, 0);
      forall p | p in TakeVouts(tx, ts, code, budget, 0).value ensures 0 <= p.value <= MAX_INT64 {
        assert IsVoutRow(tx, ts, code, p);
        BadgeValueRange(tx.outs[p.index].script);
      }
    }
  }

  /** A found outpoint is a vout row of its transaction. */
  lemma FoundRow(c: Chain, op: OutPoint)
    requires Holds(c, op).Found?
    ensures op.txid in c.txs
    ensures var p := Holds(c, op).point;
            p in Vouts(c, op.txid) && KeyOf(p) == VoutKey(op) && 0 <= p.value <= MAX_INT64
  {
    VoutRows(c, op.txid, 0);
  }

  /** Conversely, every vout row of a meaning is what its outpoint holds. */
  lemma RowFound(c: Chain, id: Txid, p: TxPoint)
    requires id in c.txs && p in Vouts(c, id)
    ensures KeyOf(p) == Key(id, p.index, Vout) && Holds(c, OutPoint(id, p.index)) == Found(p)
  {
    VoutRows(c, id, 0);
    assert IsVoutRow(c.txs[id], 0, BadgeCodeOf(c.txs[id], Vins(c, id)), p);
  }

  // ----- vins of a meaning

  /** Row `p` is the badge input at its index, copying the output it spends. */
  ghost predicate IsVinRow(c: Chain, id: Txid, ts: int, p: TxPoint)
    requires id in c.txs
  {
    && p.index < |c.txs[id].ins|
    && IsBadgeVin(c.txs[id].ins[p.index])
    && Holds(c, c.txs[id].ins[p.index].prev).Found?
    && p == NewVin(c.txs[id], p.index, ts, Holds(c, c.txs[id].ins[p.index].prev).point)
  }

  ghost predicate IsIllegalVin(c: Chain, id: Txid, i: nat)
    requires id in c.txs
  {
    i < |c.txs[id].ins| && IsBadgeVin(c.txs[id].ins[i]) && Holds(c, c.txs[id].ins[i].prev) == IllegalVin
  }

  lemma {:induction false} ScannedVins(c: Chain, id: Txid, ts: int, n: nat)
    requires id in c.txs && n <= |c.txs[id].ins|
    ensures var scan := RefScan(c, id, ts, n);
            && (forall p | p in scan.vins :: p.index < n && IsVinRow(c, id, ts, p))
            && IndexSorted(scan.vins)
  {
    hide ParseBadgeVoutScript, Meaning, RefLookup;
    if n > 0 {
      ScannedVins(c, id, ts, n - 1);
      assert IsBadgeVin(c.txs[id].ins[n - 1]) && Holds(c, c.txs[id].ins[n - 1].prev).Found? ==>
          IsVinRow(c, id, ts, NewVin(c.txs[id], n - 1, ts, Holds(c, c.txs[id].ins[n - 1].prev).point));
    }
  }

  lemma {:induction false} ScannedIllegal(c: Chain, id: Txid, ts: int, n: nat)
    requires id in c.txs && n <= |c.txs[id].ins|
    ensures RefScan(c, id, ts, n).illegal <==> exists i: nat :: i < n && IsIllegalVin(c, id, i)
  {
    if n > 0 {
      ScannedIllegal(c, id, ts, n - 1);
      if IsIllegalVin(c, id, n - 1) {
        assert RefScan(c, id, ts, n).illegal;
      } else {
        assert RefScan(c, id, ts, n).illegal == RefScan(c, id, ts, n - 1).illegal;
      }
    }
  }

  lemma {:induction false} ScanIsComplete(c: Chain, id: Txid, ts: int, n: nat, i: nat)
    requires id in c.txs && i < n <= |c.txs[id].ins|
    requires IsBadgeVin(c.txs[id].ins[i]) && Holds(c, c.txs[id].ins[i].prev).Found?
    ensures NewVin(c.txs[id], i, ts, Holds(c, c.txs[id].ins[i].prev).point) in RefScan(c, id, ts, n).vins
  {
    if i < n - 1 {
      ScanIsComplete(c, id, ts, n - 1, i);
    }
  }

  lemma VinRows(c: Chain, id: Txid, ts: int)
    requires id in c.txs
    ensures var vins := Meaning(c, id, ts).vins;
            (forall p | p in vins :: IsVinRow(c, id, ts, p)) && IndexSorted(vins)
  {
    ScannedVins(c, id, ts, |c.txs[id].ins|);
  }

  /** A vin row names, and copies address, code and negated value of, a vout row of an older transaction. */
  lemma VinCopiesVout(c: Chain, id: Txid, p: TxPoint)
    requires id in c.txs && p in Vins(c, id)
    ensures p.index < |c.txs[id].ins| && p.preIndex >= 0 && p.preTxid in c.txs
    ensures OutPoint(p.preTxid, p.preIndex) == c.txs[id].ins[p.index].prev
    ensures c.rank[p.preTxid] < c.rank[id]
    ensures var op := OutPoint(p.preTxid, p.preIndex);
            && Holds(c, op).Found?
            && Holds(c, op).point in Vouts(c, p.preTxid)
            && Holds(c, op).point.addr == p.addr
            && Holds(c, op).point.badgeCode == p.badgeCode
            && Holds(c, op).point.value == -p.value
            && KeyOf(Holds(c, op).point) == VoutKey(op)
            && 0 <= -p.value <= MAX_INT64
            && KeyOf(p) == Key(id, p.index, Vin)
  {
    VinRows(c, id, 0);
    assert IsVinRow(c, id, 0, p);
    FoundRow(c, c.txs[id].ins[p.index].prev);
  }

  // ----- keys identify rows

  lemma PointsAreKeyed(c: Chain, id: Txid)
    requires id in c.txs
    ensures forall p | p in Points(c, id) :: p.txid == id && Content(p) == p
    ensures forall p | p in Points(c, id) :: p in (if p.kind == Vin then Vins(c, id) else Vouts(c, id))
  {
    VinRows(c, id, 0);
    VoutRows(c, id, 0);
  }

  lemma SameKeySameRow(c: Chain, id: Txid, p: TxPoint, q: TxPoint)
    requires id in c.txs && p in Points(c, id) && q in Points(c, id) && KeyOf(p) == KeyOf(q)
    ensures p == q
  {
    PointsAreKeyed(c, id);
    VinRows(c, id, 0);
    VoutRows(c, id, 0);
  }

  // ----- timestamps do not matter

  ghost predicate SameContents(ps: seq<TxPoint>, qs: seq<TxPoint>) {
    |ps| == |qs| && forall i | 0 <= i < |ps| :: Content(ps[i]) == qs[i]
  }

  lemma {:induction false} StampedScan(c: Chain, id: Txid, ts: int, n: nat)
    requires id in c.txs && n <= |c.txs[id].ins|
    ensures SameContents(RefScan(c, id, ts, n).vins, RefScan(c, id, 0, n).vins)
    ensures RefScan(c, id, ts, n).illegal == RefScan(c, id, 0, n).illegal
  {
    if n > 0 {
      StampedScan(c, id, ts, n - 1);
    }
  }

  lemma {:induction false} StampedVouts(tx: MsgTx, ts: int, code: Txid, budget: int, j: nat)
    requires j <= |tx.outs|
    ensures match (TakeVouts(tx, ts, code, budget, j), TakeVouts(tx, 0, code, budget, j))
            case (Some(ps), Some(qs)) => SameContents(ps, qs)
            case (None, None) => true
            case _ => false
    decreases |tx.outs| - j
  {
    hide ParseBadgeVoutScript;
    if j < |tx.outs| {
      match ParseBadgeVoutScript(tx.outs[j].script)
      case None => StampedVouts(tx, ts, code, budget, j + 1);
      case Some(out) => StampedVouts(tx, ts, code, Sub64(budget, out.value), j + 1);
    }
  }

  lemma {:induction false} ConsumedByContents(ps: seq<TxPoint>, qs: seq<TxPoint>)
    requires SameContents(ps, qs)
    ensures Consumed(ps) == Consumed(qs) && MixesBadges(ps) == MixesBadges(qs)
    decreases |ps|
  {
    if ps != [] {
      ConsumedByContents(ps[..|ps| - 1], qs[..|qs| - 1]);
    }
    assert forall i | 0 <= i < |ps| :: ps[i].badgeCode == qs[i].badgeCode;
  }

  lemma StampedFinish(tx: MsgTx, ts: int, scan: VinScan, scan0: VinScan)
    requires SameContents(scan.vins, scan0.vins) && scan.illegal == scan0.illegal
    ensures FinishParse(tx, ts, scan).vins == scan.vins && FinishParse(tx, 0, scan0).vins == scan0.vins
    ensures SameContents(FinishParse(tx, ts, scan).vouts, FinishParse(tx, 0, scan0).vouts)
  {
    ConsumedByContents(scan.vins, scan0.vins);
    assert scan.vins != [] ==> Content(scan.vins[0]) == scan0.vins[0];
    var code, budget := BadgeCodeOf(tx, scan.vins), BudgetOf(scan.vins);
    assert BadgeCodeOf(tx, scan0.vins) == code && BudgetOf(scan0.vins) == budget;
    StampedVouts(tx, ts, code, budget, 0);
  }

  /** The meaning at any timestamp has the same content row by row. */
  lemma StampedMeaning(c: Chain, id: Txid, ts: int)
    requires id in c.txs
    ensures SameContents(Meaning(c, id, ts).vins, Vins(c, id))
    ensures SameContents(Meaning(c, id, ts).vouts, Vouts(c, id))
    ensures SameContents(Rows(Meaning(c, id, ts)), Points(c, id))
  {
    var tx := c.txs[id];
    var scan, scan0 := RefScan(c, id, ts, |tx.ins|), RefScan(c, id, 0, |tx.ins|);
    StampedScan(c, id, ts, |tx.ins|);
    StampedFinish(tx, ts, scan, scan0);
    StampedRows(FinishParse(tx, ts, scan), FinishParse(tx, 0, scan0));
  }

  lemma StampedRows(inv: TxInventory, inv0: TxInventory)
    requires SameContents(inv.vins, inv0.vins) && SameContents(inv.vouts, inv0.vouts)
    ensures SameContents(Rows(inv), Rows(inv0))
  {
  }
}
