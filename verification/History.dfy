/** TxPoints2AddrInventory: per-transaction history, and its agreement with the balance. */
module History {
  import opened Int64
  import opened Model
  import opened Chains
  import opened Store
  import opened Sums
  import opened Conservation
  import opened Views

  datatype AddrInventory = AddrInventory(addr: Addr, txid: Txid, timestamp: int, value: int)

  /** The rows of one transaction, in order. */
  function OfTx(rows: seq<TxPoint>, id: Txid): seq<TxPoint> {
    if rows == [] then [] else
    var n := |rows| - 1;
    OfTx(rows[..n], id) + if rows[n].txid == id then [rows[n]] else []
  }

  lemma {:induction false} OfTxMembers(rows: seq<TxPoint>, id: Txid)
    ensures forall p :: p in OfTx(rows, id) <==> p in rows && p.txid == id
  {
    if rows != [] {
      var n := |rows| - 1;
      OfTxMembers(rows[..n], id);
      assert rows == rows[..n] + [rows[n]];
    }
  }

  function TxTotal(rows: seq<TxPoint>, id: Txid): int {
    SumValues(OfTx(rows, id))
  }

  lemma OfTxNext(rows: seq<TxPoint>, p: TxPoint, id: Txid)
    ensures OfTx(rows + [p], id) == OfTx(rows, id) + if p.txid == id then [p] else []
  {
    assert (rows + [p])[..|rows|] == rows;
  }

  lemma TxTotalNext(rows: seq<TxPoint>, p: TxPoint, id: Txid)
    ensures TxTotal(rows + [p], id) == TxTotal(rows, id) + if p.txid == id then p.value else 0
  {
    OfTxNext(rows, p, id);
    SumValuesConcat(OfTx(rows, id), if p.txid == id then [p] else []);
    assert SumValues([p]) == p.value;
  }

  ghost predicate DistinctTxids(inventories: seq<AddrInventory>) {
    forall i, j | 0 <= i < j < |inventories| :: inventories[i].txid != inventories[j].txid
  }

  ghost predicate Mentioned(inventories: seq<AddrInventory>, id: Txid) {
    exists i | 0 <= i < |inventories| :: inventories[i].txid == id
  }

  /** The entry of a transaction: its first row's address and time, the int64 total of its rows. */
  ghost predicate IsEntry(e: AddrInventory, rows: seq<TxPoint>) {
    var own := OfTx(rows, e.txid);
    own != [] && e == AddrInventory(own[0].addr, e.txid, own[0].timestamp, Wrap(SumValues(own)))
  }

  /** One entry for each transaction of `rows`. */
  ghost predicate Summarises(inventories: seq<AddrInventory>, rows: seq<TxPoint>) {
    && DistinctTxids(inventories)
    && (forall i | 0 <= i < |inventories| :: IsEntry(inventories[i], rows))
    && (forall p | p in rows :: Mentioned(inventories, p.txid))
  }

  /** `at` finds the entry of each transaction, as the source's map of pointers does. */
  ghost predicate Indexes(at: map<Txid, nat>, inventories: seq<AddrInventory>) {
    && (forall id | id in at :: at[id] < |inventories| && inventories[at[id]].txid == id)
    && (forall i | 0 <= i < |inventories| :: inventories[i].txid in at && at[inventories[i].txid] == i)
  }

  method TxPoints2AddrInventory(txPoints: seq<TxPoint>) returns (inventories: seq<AddrInventory>)
    ensures Summarises(inventories, txPoints)
  {
    hide IsEntry, Add64, Summarises;
    SummarisesNothing();
    inventories := [];
    var at: map<Txid, nat> := map[];
    for n := 0 to |txPoints|
      invariant Indexes(at, inventories) && Summarises(inventories, txPoints[..n])
    {
      var p := txPoints[n];
      assert txPoints[..n + 1] == txPoints[..n] + [p];
      ghost var before := inventories;
      if p.txid !in at {
        assert !Mentioned(inventories, p.txid);
        FirstEntry(inventories, txPoints[..n], p);
        at := at[p.txid := |inventories|];
        inventories := inventories + [AddrInventory(p.addr, p.txid, p.timestamp, 0)];
      } else {
        GrownEntry(inventories, txPoints[..n], p, at[p.txid]);
      }
      var i := at[p.txid];
      var e := inventories[i].(value := Add64(inventories[i].value, p.value));
      PutEntry(before, txPoints[..n], p, i, e);
      inventories := inventories[i := e];
      assert inventories == if i < |before| then before[i := e] else before + [e];
    }
    assert txPoints[..|txPoints|] == txPoints;
  }

  lemma OtherEntry(e: AddrInventory, rows: seq<TxPoint>, p: TxPoint)
    requires IsEntry(e, rows) && e.txid != p.txid
    ensures IsEntry(e, rows + [p])
  {
    OfTxNext(rows, p, e.txid);
    assert OfTx(rows, e.txid) + [] == OfTx(rows, e.txid);
  }

  lemma GrownEntry(inventories: seq<AddrInventory>, rows: seq<TxPoint>, p: TxPoint, i: nat)
    requires Summarises(inventories, rows) && i < |inventories| && inventories[i].txid == p.txid
    ensures IsEntry(inventories[i].(value := Add64(inventories[i].value, p.value)), rows + [p])
  {
    assert IsEntry(inventories[i], rows);
    OfTxNext(rows, p, p.txid);
    TxTotalNext(rows, p, p.txid);
    WrapAdd(TxTotal(rows, p.txid), p.value);
  }

  lemma {:induction false} OfTxAbsent(rows: seq<TxPoint>, id: Txid)
    requires forall q | q in rows :: q.txid != id
    ensures OfTx(rows, id) == []
  {
    if rows != [] {
      OfTxAbsent(rows[..|rows| - 1], id);
    }
  }

  lemma FirstEntry(inventories: seq<AddrInventory>, rows: seq<TxPoint>, p: TxPoint)
    requires Summarises(inventories, rows) && !Mentioned(inventories, p.txid)
    ensures IsEntry(AddrInventory(p.addr, p.txid, p.timestamp, Add64(0, p.value)), rows + [p])
  {
    OfTxNext(rows, p, p.txid);
    OfTxAbsent(rows, p.txid);
    assert OfTx(rows + [p], p.txid) == [p] && SumValues([p]) == p.value;
  }

  lemma SummarisesNothing()
    ensures Summarises([], [])
  {
  }

  /** Replacing or appending the entry of `p.txid`, and leaving the others, summarises one more row. */
  lemma PutEntry(inventories: seq<AddrInventory>, rows: seq<TxPoint>, p: TxPoint, i: nat, e: AddrInventory)
    requires Summarises(inventories, rows) && i <= |inventories| && IsEntry(e, rows + [p]) && e.txid == p.txid
    requires if i < |inventories| then inventories[i].txid == p.txid else !Mentioned(inventories, p.txid)
    ensures Summarises(if i < |inventories| then inventories[i := e] else inventories + [e], rows + [p])
  {
    hide IsEntry;
    var inventories' := if i < |inventories| then inventories[i := e] else inventories + [e];
    assert inventories'[i] == e;
    forall j | 0 <= j < |inventories| && j != i
      ensures inventories'[j] == inventories[j] && IsEntry(inventories'[j], rows + [p])
    {
      assert inventories[j].txid != p.txid;
      OtherEntry(inventories[j], rows, p);
    }
    forall q | q in rows + [p] ensures Mentioned(inventories', q.txid) {
      if q in rows {
        var j :| 0 <= j < |inventories| && inventories[j].txid == q.txid;
        assert inventories'[j].txid == q.txid;
      } else {
        assert inventories'[i].txid == q.txid;
      }
    }
  }

  // ----- the entries of a whole history sum to its rows

  function SumEntries(inventories: seq<AddrInventory>): int {
    if inventories == [] then 0
    else SumEntries(inventories[..|inventories| - 1]) + inventories[|inventories| - 1].value
  }

  ghost function SumTotals(inventories: seq<AddrInventory>, rows: seq<TxPoint>): int {
    if inventories == [] then 0
    else SumTotals(inventories[..|inventories| - 1], rows) + TxTotal(rows, inventories[|inventories| - 1].txid)
  }

  /** The last entry's txid is mentioned by no earlier entry. */
  lemma MentionedOnce(inventories: seq<AddrInventory>, id: Txid)
    requires DistinctTxids(inventories) && inventories != []
    ensures var n := |inventories| - 1;
            && DistinctTxids(inventories[..n])
            && (Mentioned(inventories, id) <==> Mentioned(inventories[..n], id) || inventories[n].txid == id)
            && (inventories[n].txid == id ==> !Mentioned(inventories[..n], id))
  {
    var n := |inventories| - 1;
    var rest := inventories[..n];
    assert forall i | 0 <= i < n :: rest[i] == inventories[i];
    if Mentioned(inventories, id) && inventories[n].txid != id {
      var i :| 0 <= i < |inventories| && inventories[i].txid == id;
      assert rest[i].txid == id;
    }
  }

  lemma {:induction false} SumTotalsNext(inventories: seq<AddrInventory>, rows: seq<TxPoint>, p: TxPoint)
    requires DistinctTxids(inventories)
    ensures SumTotals(inventories, rows + [p]) ==
            SumTotals(inventories, rows) + if Mentioned(inventories, p.txid) then p.value else 0
  {
    if inventories != [] {
      var n := |inventories| - 1;
      SumTotalsNext(inventories[..n], rows, p);
      TxTotalNext(rows, p, inventories[n].txid);
      hide TxTotal;
      MentionedOnce(inventories, p.txid);
    }
  }

  lemma {:induction false} SumTotalsOfNothing(inventories: seq<AddrInventory>)
    ensures SumTotals(inventories, []) == 0
  {
    if inventories != [] {
      SumTotalsOfNothing(inventories[..|inventories| - 1]);
    }
  }

  lemma {:induction false} TotalsAreRows(inventories: seq<AddrInventory>, rows: seq<TxPoint>)
    requires DistinctTxids(inventories) && forall p | p in rows :: Mentioned(inventories, p.txid)
    ensures SumTotals(inventories, rows) == SumValues(rows)
    decreases |rows|
  {
    if rows == [] {
      SumTotalsOfNothing(inventories);
    } else {
      var n := |rows| - 1;
      assert rows == rows[..n] + [rows[n]];
      TotalsAreRows(inventories, rows[..n]);
      SumTotalsNext(inventories, rows[..n], rows[n]);
    }
  }

  lemma {:induction false} EntriesAreTotals(inventories: seq<AddrInventory>, rows: seq<TxPoint>)
    requires forall i | 0 <= i < |inventories| ::
             IsEntry(inventories[i], rows) && InRange(TxTotal(rows, inventories[i].txid))
    ensures SumEntries(inventories) == SumTotals(inventories, rows)
  {
    if inventories != [] {
      EntriesAreTotals(inventories[..|inventories| - 1], rows);
    }
  }

  // ----- each entry fits int64

  lemma {:induction false} SumWithinOfCode(ps: seq<TxPoint>, s: set<Key>, b: Txid)
    requires forall p | p in ps :: p.value <= 0 && (KeyOf(p) in s ==> p.badgeCode == b)
    ensures SumValues(OfCode(ps, b)) <= SumWithin(ps, s) <= 0
  {
    if ps != [] {
      var n := |ps| - 1;
      assert ps[n] in ps && forall p | p in ps[..n] :: p in ps;
      SumWithinOfCode(ps[..n], s, b);
      SumValuesConcat(OfCode(ps[..n], b), if ps[n].badgeCode == b then [ps[n]] else []);
      assert SumValues([ps[n]]) == ps[n].value;
    }
  }

  lemma VinPartBounds(c: Chain, points: map<Key, TxPoint>, id: Txid, b: Txid, s: set<Key>)
    requires StoreOk(c, points) && id in c.txs && Exact(c, id)
    requires s <= TxRows(points, id, b) && forall k | k in s :: k.kind == Vin
    ensures -MAX_INT64 <= Sum(points, s) <= 0
  {
    StoredSum(c, points, id, Vin, s);
    forall p | p in Vins(c, id) ensures p.value <= 0 && (KeyOf(p) in s ==> p.badgeCode == b) {
      VinCopiesVout(c, id, p);
      if KeyOf(p) in s {
        StoredKinds(c, points, KeyOf(p));
        SameKeySameRow(c, id, p, Content(points[KeyOf(p)]));
      }
    }
    SumWithinOfCode(Vins(c, id), s, b);
    assert -SumValues(OfCode(Vins(c, id), b)) <= MAX_INT64;
  }

  lemma VoutPartBounds(c: Chain, points: map<Key, TxPoint>, id: Txid, s: set<Key>)
    requires StoreOk(c, points) && id in c.txs && Exact(c, id) && s <= points.Keys
    requires forall k | k in s :: k.kind == Vout && k.txid == id
    ensures 0 <= Sum(points, s) <= MAX_INT64
  {
    StoredSum(c, points, id, Vout, s);
    VoutRows(c, id, 0);
    SumWithinAll(Vouts(c, id), s);
    TransactionConserves(c, id);
    forall k | k in s ensures points[k].value >= 0 {
      StoredKinds(c, points, k);
    }
    SumNonNegative(points, s);
    if Vouts(c, id) != [] {
      ConsumedFits(c, id);
    }
  }

  lemma ConsumedFits(c: Chain, id: Txid)
    requires id in c.txs && Exact(c, id) && Vouts(c, id) != []
    ensures -SumValues(Vins(c, id)) <= MAX_INT64
  {
    VoutCode(c, id, Vouts(c, id)[0]);
    var b := Vouts(c, id)[0].badgeCode;
    OfCodeAll(Vins(c, id), b);
    assert -SumValues(OfCode(Vins(c, id), b)) <= MAX_INT64;
  }

  lemma EntryFits(c: Chain, points: map<Key, TxPoint>, id: Txid, b: Txid, s: set<Key>)
    requires StoreOk(c, points) && NoDoubleSpend(c) && id in c.txs && s <= TxRows(points, id, b)
    ensures InRange(Sum(points, s))
  {
    NoOverflow(c, id);
    var ins, outs := KindIn(s, Vin), KindIn(s, Vout);
    assert s == ins + outs;
    SumUnion(points, ins, outs);
    VinPartBounds(c, points, id, b, ins);
    VoutPartBounds(c, points, id, outs);
  }

  lemma {:induction false} OfTxDistinct(rows: seq<TxPoint>, id: Txid)
    requires DistinctKeys(rows)
    ensures DistinctKeys(OfTx(rows, id))
  {
    if rows != [] {
      var n := |rows| - 1;
      OfTxDistinct(rows[..n], id);
      OfTxMembers(rows[..n], id);
      forall p | p in OfTx(rows[..n], id) ensures KeyOf(p) != KeyOf(rows[n]) {
        var m :| 0 <= m < n && rows[..n][m] == p;
        assert rows[m] == p;
      }
    }
  }

  lemma OfTxQuery(rows: seq<TxPoint>, points: map<Key, TxPoint>, sel: set<Key>, id: Txid)
    requires IsQuery(rows, points, sel) && forall k | k in points :: KeyOf(points[k]) == k
    ensures IsQuery(OfTx(rows, id), points, set k | k in sel && k.txid == id)
  {
    OfTxDistinct(rows, id);
    OfTxMembers(rows, id);
  }

  lemma TxTotalFits(c: Chain, l: Ledger, addrs: set<Addr>, code: Txid, rows: seq<TxPoint>, id: Txid)
    requires LedgerOk(c, l) && NoDoubleSpend(c) && IsQuery(rows, l.points, AddrRows(l.points, addrs, code))
    requires OfTx(rows, id) != []
    ensures InRange(TxTotal(rows, id))
  {
    var points := l.points;
    var sel := set k | k in AddrRows(points, addrs, code) && k.txid == id;
    StoredKeyed(c, points);
    OfTxQuery(rows, points, AddrRows(points, addrs, code), id);
    QuerySum(OfTx(rows, id), points, sel);
    var p := OfTx(rows, id)[0];
    assert p in OfTx(rows, id) && KeyOf(p) in sel;
    StoredKinds(c, points, KeyOf(p));
    EntryFits(c, points, id, code, sel);
  }

  /**
   * History agrees with balance: without double spends, the values of an address's (or a user's) full
   * per-transaction history sum to the balance computed from unspent outputs, in every ledger state.
   */
  lemma HistoryIsBalance(c: Chain, l: Ledger, addrs: set<Addr>, code: Txid, rows: seq<TxPoint>,
    inventories: seq<AddrInventory>)
    requires LedgerOk(c, l) && NoDoubleSpend(c)
    requires IsQuery(rows, l.points, AddrRows(l.points, addrs, code)) && Summarises(inventories, rows)
    ensures SumEntries(inventories) == Balance(l.points, addrs, code)
  {
    var points := l.points;
    forall i | 0 <= i < |inventories| ensures InRange(TxTotal(rows, inventories[i].txid)) {
      assert IsEntry(inventories[i], rows);
      TxTotalFits(c, l, addrs, code, rows, inventories[i].txid);
    }
    EntriesAreTotals(inventories, rows);
    TotalsAreRows(inventories, rows);
    StoredKeyed(c, points);
    QuerySum(rows, points, AddrRows(points, addrs, code));
    StoredSpendsOnce(c, points);
    ViewsAreSpendClosed(c, points, addrs, code);
    NetIsUnspent(points, AddrRows(points, addrs, code));
  }
}
