/** Conservation of badges, absence of int64 overflow, and provenance, over every reachable store. */
module Conservation {
  import opened Int64
  import opened Script
  import opened Model
  import opened Chains
  import opened Store
  import opened Sums
  import opened Workers

  /** The base chain lets badge inputs spend each outpoint at most once. */
  ghost predicate NoDoubleSpend(c: Chain) {
    forall a, i, b, j |
      && a in c.txs && 0 <= i < |c.txs[a].ins| && IsBadgeVin(c.txs[a].ins[i])
      && b in c.txs && 0 <= j < |c.txs[b].ins| && IsBadgeVin(c.txs[b].ins[j])
      && c.txs[a].ins[i].prev == c.txs[b].ins[j].prev :: a == b && i == j
  }

  /** What the one transaction that can issue badge `b` created. */
  ghost function Issued(c: Chain, b: Txid): int {
    if b in c.txs && Vins(c, b) == [] then SumValues(Vouts(c, b)) else 0
  }

  // ----- codes

  /** Vouts exist only under one code: the transaction's own, or that of all its vins. */
  lemma VoutCode(c: Chain, id: Txid, p: TxPoint)
    requires id in c.txs && p in Vouts(c, id)
    ensures p.badgeCode == BadgeCodeOf(c.txs[id], Vins(c, id))
    ensures forall v | v in Vins(c, id) :: v.badgeCode == p.badgeCode
    ensures forall i | 0 <= i < |c.txs[id].ins| :: !IsIllegalVin(c, id, i)
  {
    VoutRows(c, id, 0);
    assert IsVoutRow(c.txs[id], 0, BadgeCodeOf(c.txs[id], Vins(c, id)), p);
    ScannedIllegal(c, id, 0, |c.txs[id].ins|);
    var vins := Vins(c, id);
    assert !MixesBadges(vins);
    forall v | v in vins ensures v.badgeCode == vins[0].badgeCode {
      var i :| 0 <= i < |vins| && vins[i] == v;
    }
  }

  /** A badge code is an issuing transaction, no younger than the transaction carrying it. */
  lemma {:induction false} CodeRank(c: Chain, id: Txid, p: TxPoint)
    requires id in c.txs && p in Vouts(c, id)
    ensures p.badgeCode in c.txs
    ensures if Vins(c, id) == [] then p.badgeCode == id else c.rank[p.badgeCode] < c.rank[id]
    decreases c.rank[id]
  {
    VoutCode(c, id, p);
    if Vins(c, id) != [] {
      var v := Vins(c, id)[0];
      VinCopiesVout(c, id, v);
      CodeRank(c, v.preTxid, Holds(c, OutPoint(v.preTxid, v.preIndex)).point);
    }
  }

  // ----- one transaction

  lemma {:induction false} TakenTotal(tx: MsgTx, ts: int, code: Txid, budget: int, j: nat)
    requires j <= |tx.outs| && 0 <= budget <= MAX_INT64
    requires TakeVouts(tx, ts, code, budget, j).Some?
    ensures SumValues(TakeVouts(tx, ts, code, budget, j).value) <= budget
    decreases |tx.outs| - j
  {
    hide ParseBadgeVoutScript;
    if j < |tx.outs| {
      match ParseBadgeVoutScript(tx.outs[j].script)
      case None => TakenTotal(tx, ts, code, budget, j + 1);
      case Some(out) =>
        BadgeValueRange(tx.outs[j].script);
        TakenTotal(tx, ts, code, budget - out.value, j + 1);
        SumValuesConcat([NewVout(tx, j, ts, code, out)], TakeVouts(tx, ts, code, budget - out.value, j + 1).value);
    }
  }

  /** The vin totals of ParseMsgTx fit int64, for each badge code. */
  ghost predicate Exact(c: Chain, id: Txid)
    requires id in c.txs
  {
    forall b: Txid :: -SumValues(OfCode(Vins(c, id), b)) <= MAX_INT64
  }

  /** With exact totals, the budget of a one-badge transaction is the exact sum of its inputs. */
  lemma ExactBudget(c: Chain, id: Txid)
    requires id in c.txs && Exact(c, id)
    ensures var vins := Vins(c, id);
            && 0 <= -SumValues(vins)
            && (!MixesBadges(vins) ==>
                  && 0 <= BudgetOf(vins) <= MAX_INT64
                  && BudgetOf(vins) == if vins == [] then MAX_INT64 else -SumValues(vins))
  {
    forall v | v in Vins(c, id) ensures v.value <= 0 {
      VinCopiesVout(c, id, v);
    }
    OneBadgeBudget(Vins(c, id));
  }

  lemma OneBadgeBudget(vins: seq<TxPoint>)
    requires forall v | v in vins :: v.value <= 0
    requires forall b: Txid :: -SumValues(OfCode(vins, b)) <= MAX_INT64
    ensures 0 <= -SumValues(vins)
    ensures !MixesBadges(vins) ==>
              && 0 <= BudgetOf(vins) <= MAX_INT64
              && BudgetOf(vins) == if vins == [] then MAX_INT64 else -SumValues(vins)
  {
    hide OfCode, Consumed, SumValues;
    SumValuesSigns(vins);
    if vins != [] && !MixesBadges(vins) {
      var b := vins[0].badgeCode;
      forall v | v in vins ensures v.badgeCode == b {
        var n :| 0 <= n < |vins| && vins[n] == v;
      }
      OfCodeAll(vins, b);
      assert -SumValues(OfCode(vins, b)) <= MAX_INT64;
      ConsumedExact(vins);
    }
  }

  lemma FinishedTotal(tx: MsgTx, scan: VinScan)
    requires !MixesBadges(scan.vins) ==> 0 <= BudgetOf(scan.vins) <= MAX_INT64
    ensures var vouts := FinishParse(tx, 0, scan).vouts;
            vouts == [] || (!MixesBadges(scan.vins) && SumValues(vouts) <= BudgetOf(scan.vins))
  {
    hide ParseBadgeVoutScript;
    var code, budget := BadgeCodeOf(tx, scan.vins), BudgetOf(scan.vins);
    if !MixesBadges(scan.vins) && TakeVouts(tx, 0, code, budget, 0).Some? {
      TakenTotal(tx, 0, code, budget, 0);
    }
  }

  /** A transaction with exact totals creates at most what it consumes, or issues at most the cap. */
  lemma TransactionConserves(c: Chain, id: Txid)
    requires id in c.txs && Exact(c, id)
    ensures SumValues(Vouts(c, id)) <= if Vins(c, id) == [] then MAX_INT64 else -SumValues(Vins(c, id))
    ensures 0 <= SumValues(Vouts(c, id))
  {
    hide ParseBadgeVoutScript;
    VoutRows(c, id, 0);
    SumValuesSigns(Vouts(c, id));
    ExactBudget(c, id);
    FinishedTotal(c.txs[id], RefScan(c, id, 0, |c.txs[id].ins|));
  }

  ghost function TxRows(points: map<Key, TxPoint>, id: Txid, b: Txid): set<Key> {
    set k | k in points && k.txid == id && points[k].badgeCode == b
  }

  lemma StoredKinds(c: Chain, points: map<Key, TxPoint>, k: Key)
    requires Faithful(c, points) && k in points
    ensures k.txid in c.txs
    ensures Content(points[k]) in (if k.kind == Vin then Vins(c, k.txid) else Vouts(c, k.txid))
    ensures KeyOf(Content(points[k])) == k && SpentKey(Content(points[k])) == SpentKey(points[k])
    ensures k.kind == Vin ==> points[k].value <= 0
    ensures k.kind == Vout ==> 0 <= points[k].value <= MAX_INT64
  {
    var p := Content(points[k]);
    assert RowOk(c, k, points[k]);
    ContentKeepsKeys(points[k], p);
    PointsAreKeyed(c, k.txid);
    if k.kind == Vin {
      VinCopiesVout(c, k.txid, p);
    } else {
      VoutRows(c, k.txid, 0);
    }
  }

  lemma SortedKeysDistinct(c: Chain, id: Txid)
    requires id in c.txs
    ensures DistinctKeys(Vins(c, id)) && DistinctKeys(Vouts(c, id))
  {
    VinRows(c, id, 0);
    VoutRows(c, id, 0);
  }

  /** The stored rows of one kind and code of a transaction sum to their part of the meaning. */
  lemma StoredSum(c: Chain, points: map<Key, TxPoint>, id: Txid, kind: Kind, s: set<Key>)
    requires Faithful(c, points) && id in c.txs && s <= points.Keys
    requires forall k | k in s :: k.txid == id && k.kind == kind
    ensures Sum(points, s) == SumWithin(if kind == Vin then Vins(c, id) else Vouts(c, id), s)
  {
    var ps := if kind == Vin then Vins(c, id) else Vouts(c, id);
    SortedKeysDistinct(c, id);
    forall k | k in s ensures exists p | p in ps :: KeyOf(p) == k {
      StoredKinds(c, points, k);
      assert Content(points[k]) in ps;
    }
    forall p | p in ps && KeyOf(p) in s ensures points[KeyOf(p)].value == p.value {
      StoredKinds(c, points, KeyOf(p));
      SameKeySameRow(c, id, p, Content(points[KeyOf(p)]));
    }
    SumOfRows(points, ps, s);
  }

  ghost function KindIn(s: set<Key>, kind: Kind): set<Key> {
    set k | k in s && k.kind == kind
  }

  /** At every moment the stored rows of a transaction add nothing to badge `b`, unless it issues `b`. */
  lemma TxNet(c: Chain, points: map<Key, TxPoint>, id: Txid, b: Txid)
    requires StoreOk(c, points) && id in c.txs && Exact(c, id)
    ensures Sum(points, TxRows(points, id, b)) <= if id == b then Issued(c, b) else 0
  {
    var rows := TxRows(points, id, b);
    var ins, outs := KindIn(rows, Vin), KindIn(rows, Vout);
    assert rows == ins + outs;
    SumUnion(points, ins, outs);
    forall k | k in ins ensures points[k].value <= 0 {
      StoredKinds(c, points, k);
    }
    SumNonPositive(points, ins);
    TransactionConserves(c, id);
    if outs != {} {
      VoutsNet(c, points, id, b, ins, outs);
    }
  }

  lemma VoutsNet(c: Chain, points: map<Key, TxPoint>, id: Txid, b: Txid, ins: set<Key>, outs: set<Key>)
    requires StoreOk(c, points) && id in c.txs && Exact(c, id)
    requires ins == KindIn(TxRows(points, id, b), Vin) && outs == KindIn(TxRows(points, id, b), Vout) && outs != {}
    requires Sum(points, ins) <= 0
    ensures Sum(points, ins) + Sum(points, outs) <= if id == b then Issued(c, b) else 0
  {
    var k :| k in outs;
    StoredKinds(c, points, k);
    var p := Content(points[k]);
    VoutCode(c, id, p);
    CodeRank(c, id, p);
    TransactionConserves(c, id);
    VoutRows(c, id, 0);
    StoredSum(c, points, id, Vout, outs);
    SumWithinAll(Vouts(c, id), outs);
    if Vins(c, id) != [] {
      assert id != b;
      forall v | v in Vins(c, id) ensures KeyOf(v) in ins {
        StoredVin(c, points, id, v);
      }
      StoredSum(c, points, id, Vin, ins);
      SumWithinAll(Vins(c, id), ins);
    }
  }

  lemma StoredVin(c: Chain, points: map<Key, TxPoint>, id: Txid, v: TxPoint)
    requires StoreOk(c, points) && id in c.txs && v in Vins(c, id)
    requires exists k | k in points :: k.kind == Vout && k.txid == id
    ensures KeyOf(v) in points && KeyOf(v).txid == id && KeyOf(v).kind == Vin
            && points[KeyOf(v)].badgeCode == v.badgeCode
  {
    VinCopiesVout(c, id, v);
    var k := KeyOf(v);
    assert HasAll(points, Vins(c, id));
    StoredKinds(c, points, k);
    SameKeySameRow(c, id, v, Content(points[k]));
  }

  // ----- a whole store

  ghost function CodeRows(points: map<Key, TxPoint>, b: Txid): set<Key> {
    set k | k in points && points[k].badgeCode == b
  }

  ghost function CodeRowsOf(points: map<Key, TxPoint>, b: Txid, ids: set<Txid>): set<Key> {
    set k | k in points && points[k].badgeCode == b && k.txid in ids
  }

  lemma {:induction false} CodeNet(c: Chain, points: map<Key, TxPoint>, b: Txid, ids: set<Txid>)
    requires StoreOk(c, points) && ids <= c.txs.Keys && forall id | id in ids :: Exact(c, id)
    ensures Sum(points, CodeRowsOf(points, b, ids)) <= if b in ids then Issued(c, b) else 0
    decreases ids
  {
    if ids == {} {
      assert CodeRowsOf(points, b, ids) == {};
    } else {
      var id :| id in ids;
      CodeNet(c, points, b, ids - {id});
      TxNet(c, points, id, b);
      CodeRowsSplit(points, b, ids, id);
    }
  }

  lemma CodeRowsSplit(points: map<Key, TxPoint>, b: Txid, ids: set<Txid>, id: Txid)
    requires id in ids
    ensures Sum(points, CodeRowsOf(points, b, ids)) ==
            Sum(points, TxRows(points, id, b)) + Sum(points, CodeRowsOf(points, b, ids - {id}))
  {
    assert CodeRowsOf(points, b, ids) == TxRows(points, id, b) + CodeRowsOf(points, b, ids - {id});
    SumUnion(points, TxRows(points, id, b), CodeRowsOf(points, b, ids - {id}));
  }

  /** A vin row, wherever it is stored, carries address, code and negated value of the stored vout it spends. */
  lemma StoredCopies(c: Chain, points: map<Key, TxPoint>, k: Key)
    requires StoreOk(c, points) && k in points && k.kind == Vin
    ensures var v := SpentKey(points[k]);
            && v in points && v.kind == Vout
            && points[v].addr == points[k].addr
            && points[v].badgeCode == points[k].badgeCode
            && points[v].value == -points[k].value
  {
    StoredKinds(c, points, k);
    var p := Content(points[k]);
    VinCopiesVout(c, k.txid, p);
    var op := OutPoint(p.preTxid, p.preIndex);
    assert VoutKey(op) == SpentKey(points[k]) && VoutKey(op) in points;
    StoredVout(c, points, op);
  }

  lemma StoredSpendsOnce(c: Chain, points: map<Key, TxPoint>)
    requires StoreOk(c, points) && NoDoubleSpend(c)
    ensures SpendsOnce(points)
  {
    forall k | k in points && k.kind == Vin
      ensures SpentKey(points[k]) in points && points[SpentKey(points[k])].value == -points[k].value
    {
      StoredCopies(c, points, k);
    }
    forall j, k | j in points && k in points && j.kind == Vin && k.kind == Vin
      && SpentKey(points[j]) == SpentKey(points[k])
      ensures j == k
    {
      StoredInput(c, points, j);
      StoredInput(c, points, k);
    }
  }

  /** A stored vin row is a badge input of its transaction. */
  lemma StoredInput(c: Chain, points: map<Key, TxPoint>, k: Key)
    requires StoreOk(c, points) && k in points && k.kind == Vin
    ensures k.txid in c.txs && 0 <= k.index < |c.txs[k.txid].ins| && IsBadgeVin(c.txs[k.txid].ins[k.index])
    ensures SpentKey(points[k]) == VoutKey(c.txs[k.txid].ins[k.index].prev)
  {
    StoredKinds(c, points, k);
    var p := Content(points[k]);
    VinCopiesVout(c, k.txid, p);
    VinRows(c, k.txid, 0);
    assert IsVinRow(c, k.txid, 0, p);
  }

  ghost function UnspentTotal(points: map<Key, TxPoint>, b: Txid): int {
    Sum(points, CodeRows(points, b) * Unspent(points))
  }

  lemma StoreConserves(c: Chain, points: map<Key, TxPoint>, b: Txid)
    requires StoreOk(c, points) && NoDoubleSpend(c)
    requires forall k | k in points :: k.txid in c.txs && Exact(c, k.txid)
    requires b in c.txs ==> Exact(c, b)
    ensures 0 <= UnspentTotal(points, b) <= Issued(c, b) <= MAX_INT64
  {
    hide StoreOk, Exact, NoDoubleSpend, Issued, SpendsOnce, IsSpent;
    var ids := set k | k in points :: k.txid;
    CodeNet(c, points, b, ids);
    assert CodeRowsOf(points, b, ids) == CodeRows(points, b);
    StoredSpendsOnce(c, points);
    forall k | k in points && k.kind == Vin
      ensures k in CodeRows(points, b) <==> SpentKey(points[k]) in CodeRows(points, b)
    {
      StoredCopies(c, points, k);
    }
    NetIsUnspent(points, CodeRows(points, b));
    IssuedBounds(c, b);
    StoreIsFaithful(c, points);
    forall k | k in CodeRows(points, b) * Unspent(points) ensures points[k].value >= 0 {
      StoredKinds(c, points, k);
    }
    SumNonNegative(points, CodeRows(points, b) * Unspent(points));
  }

  lemma IssuedBounds(c: Chain, b: Txid)
    requires b in c.txs ==> Exact(c, b)
    ensures 0 <= Issued(c, b) <= MAX_INT64
  {
    hide Exact, Meaning;
    if b in c.txs {
      TransactionConserves(c, b);
    }
  }

  // ----- the rows of all transactions below a rank

  ghost function RowAt(c: Chain, k: Key): TxPoint
    requires k.txid in c.txs && exists p | p in Points(c, k.txid) :: KeyOf(p) == k
  {
    var p :| p in Points(c, k.txid) && KeyOf(p) == k; p
  }

  ghost function KeysBelow(c: Chain, r: nat): set<Key> {
    set id, p | id in c.txs && c.rank[id] < r && p in Points(c, id) :: KeyOf(p)
  }

  ghost function StoreBelow(c: Chain, r: nat): map<Key, TxPoint> {
    map k | k in KeysBelow(c, r) && k.txid in c.txs && exists p | p in Points(c, k.txid) :: KeyOf(p) == k :: RowAt(c, k)
  }

  lemma BelowHas(c: Chain, r: nat, id: Txid, p: TxPoint)
    requires id in c.txs && c.rank[id] < r && p in Points(c, id)
    ensures KeyOf(p) in StoreBelow(c, r) && StoreBelow(c, r)[KeyOf(p)] == p
  {
    PointsAreKeyed(c, id);
    SameKeySameRow(c, id, p, RowAt(c, KeyOf(p)));
  }

  lemma BelowRank(c: Chain, r: nat, k: Key)
    requires k in StoreBelow(c, r)
    ensures k.txid in c.txs && c.rank[k.txid] < r
    ensures StoreBelow(c, r)[k] in Points(c, k.txid) && RowOk(c, k, StoreBelow(c, r)[k])
  {
    var id, p :| id in c.txs && c.rank[id] < r && p in Points(c, id) && KeyOf(p) == k;
    PointsAreKeyed(c, id);
  }

  lemma BelowOk(c: Chain, r: nat)
    ensures StoreOk(c, StoreBelow(c, r))
  {
    var points := StoreBelow(c, r);
    forall k | k in points ensures RowOk(c, k, points[k]) {
      BelowRank(c, r, k);
    }
    forall k | k in points && k.kind == Vout && k.txid in c.txs ensures HasAll(points, Vins(c, k.txid)) {
      BelowRank(c, r, k);
      forall v | v in Vins(c, k.txid) ensures KeyOf(v) in points {
        BelowHas(c, r, k.txid, v);
      }
    }
    forall k | k in points && k.kind == Vin ensures SpentKey(points[k]) in points {
      BelowRank(c, r, k);
      PointsAreKeyed(c, k.txid);
      VinCopiesVout(c, k.txid, points[k]);
      BelowHas(c, r, points[k].preTxid, Holds(c, OutPoint(points[k].preTxid, points[k].preIndex)).point);
    }
  }

  lemma VinsSpendDistinct(c: Chain, id: Txid)
    requires id in c.txs && NoDoubleSpend(c)
    ensures DistinctSpends(Vins(c, id))
  {
    var vins := Vins(c, id);
    VinRows(c, id, 0);
    forall i, j | 0 <= i < j < |vins| ensures SpentKey(vins[i]) != SpentKey(vins[j]) {
      VinCopiesVout(c, id, vins[i]);
      VinCopiesVout(c, id, vins[j]);
      assert IsVinRow(c, id, 0, vins[i]) && IsVinRow(c, id, 0, vins[j]);
    }
  }

  /** What `v` of transaction `id` spends is still unspent among the older transactions. */
  lemma SpendsUnspent(c: Chain, id: Txid, v: TxPoint)
    requires id in c.txs && NoDoubleSpend(c) && v in Vins(c, id)
    ensures var points := StoreBelow(c, c.rank[id]);
            && SpentKey(v) in CodeRows(points, v.badgeCode) * Unspent(points)
            && points[SpentKey(v)].value == -v.value
  {
    hide StoreBelow, Meaning, Holds, StoreOk, KeysBelow;
    var points := StoreBelow(c, c.rank[id]);
    VinCopiesVout(c, id, v);
    BelowHas(c, c.rank[id], v.preTxid, Holds(c, OutPoint(v.preTxid, v.preIndex)).point);
    BelowOk(c, c.rank[id]);
    if IsSpent(points, SpentKey(v)) {
      var j :| j in points && j.kind == Vin && SpentKey(points[j]) == SpentKey(v);
      StoredInput(c, points, j);
      BelowRank(c, c.rank[id], j);
      VinIsFlagged(c, id, v);
    }
  }

  lemma VinIsFlagged(c: Chain, id: Txid, v: TxPoint)
    requires id in c.txs && v in Vins(c, id)
    ensures v.index < |c.txs[id].ins| && IsBadgeVin(c.txs[id].ins[v.index])
  {
    VinRows(c, id, 0);
    assert IsVinRow(c, id, 0, v);
  }

  /**
   * No int64 overflow in the vin loop: on a chain without double spends, what a transaction's vins
   * consume of any one badge fits int64. Conservation among its ancestors bounds it by the issuance.
   */
  lemma {:induction false} NoOverflow(c: Chain, id: Txid)
    requires id in c.txs && NoDoubleSpend(c)
    ensures Exact(c, id)
    decreases c.rank[id]
  {
    var points := StoreBelow(c, c.rank[id]);
    BelowOk(c, c.rank[id]);
    forall x | x in c.txs && c.rank[x] < c.rank[id] ensures Exact(c, x) {
      NoOverflow(c, x);
    }
    forall b: Txid ensures -SumValues(OfCode(Vins(c, id), b)) <= MAX_INT64 {
      var vins := OfCode(Vins(c, id), b);
      if vins != [] {
        SpentBelow(c, id, b);
      }
    }
  }

  lemma SpentBelow(c: Chain, id: Txid, b: Txid)
    requires id in c.txs && NoDoubleSpend(c) && OfCode(Vins(c, id), b) != []
    requires forall x | x in c.txs && c.rank[x] < c.rank[id] :: Exact(c, x)
    ensures -SumValues(OfCode(Vins(c, id), b)) <= MAX_INT64
  {
    var points, vins := StoreBelow(c, c.rank[id]), OfCode(Vins(c, id), b);
    BelowOk(c, c.rank[id]);
    forall k | k in points ensures k.txid in c.txs && Exact(c, k.txid) {
      BelowRank(c, c.rank[id], k);
    }
    OfCodeMembers(Vins(c, id), b);
    CodeBelow(c, id, vins[0]);
    StoreConserves(c, points, b);
    forall v | v in vins
      ensures SpentKey(v) in CodeRows(points, b) * Unspent(points) && points[SpentKey(v)].value == -v.value
    {
      SpendsUnspent(c, id, v);
    }
    VinsSpendDistinct(c, id);
    OfCodeDistinct(Vins(c, id), b);
    SumOfSpent(points, vins);
    forall k | k in CodeRows(points, b) * Unspent(points) ensures points[k].value >= 0 {
      StoredKinds(c, points, k);
    }
    SumSubset(points, SpentKeys(vins), CodeRows(points, b) * Unspent(points));
  }

  lemma CodeBelow(c: Chain, id: Txid, v: TxPoint)
    requires id in c.txs && v in Vins(c, id)
    ensures v.badgeCode in c.txs && c.rank[v.badgeCode] < c.rank[id]
  {
    VinCopiesVout(c, id, v);
    CodeRank(c, v.preTxid, Holds(c, OutPoint(v.preTxid, v.preIndex)).point);
  }

  // ----- main results

  /**
   * Conservation over every run: without double spends, at every moment of every interleaving the
   * unspent total of a badge is at most what its one issuing transaction created, which fits int64.
   */
  lemma UnspentNeverExceedsIssued(c: Chain, s: System, b: Txid)
    requires Reachable(c, s) && NoDoubleSpend(c)
    ensures 0 <= UnspentTotal(s.ledger.points, b) <= Issued(c, b) <= MAX_INT64
  {
    ReachableOk(c, s);
    LedgerConserves(c, s.ledger, b);
  }

  lemma LedgerConserves(c: Chain, l: Ledger, b: Txid)
    requires LedgerOk(c, l) && NoDoubleSpend(c)
    ensures 0 <= UnspentTotal(l.points, b) <= Issued(c, b) <= MAX_INT64
  {
    forall k | k in l.points ensures k.txid in c.txs && Exact(c, k.txid) {
      assert RowOk(c, k, l.points[k]);
      NoOverflow(c, k.txid);
    }
    if b in c.txs {
      NoOverflow(c, b);
    }
    StoreConserves(c, l.points, b);
  }

  /** No transaction other than the issuing one ever contributes a positive amount to a badge. */
  lemma OnlyIssuanceRaises(c: Chain, s: System, id: Txid, b: Txid)
    requires Reachable(c, s) && NoDoubleSpend(c) && id != b
    ensures Sum(s.ledger.points, TxRows(s.ledger.points, id, b)) <= 0
  {
    ReachableOk(c, s);
    if id in c.txs {
      NoOverflow(c, id);
      TxNet(c, s.ledger.points, id, b);
    } else {
      assert forall k | k in s.ledger.points :: RowOk(c, k, s.ledger.points[k]);
      assert TxRows(s.ledger.points, id, b) == {};
    }
  }
}
