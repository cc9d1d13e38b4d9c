/** The views of the ledger: unspent outputs, balances and histories of addresses and users. */
module Views {
  import opened Int64
  import opened Model
  import opened Chains
  import opened Store
  import opened Sums
  import opened Workers
  import opened Conservation
  import opened Keys

  // ----- queries

  /** `rows` lists, once each and in any order, the stored rows at the keys `sel`. */
  ghost predicate IsQuery(rows: seq<TxPoint>, points: map<Key, TxPoint>, sel: set<Key>) {
    && sel <= points.Keys && DistinctKeys(rows)
    && (forall p | p in rows :: KeyOf(p) in sel && points[KeyOf(p)] == p)
    && (forall k | k in sel :: points[k] in rows)
  }

  /** All rows of a badge at the given addresses. */
  ghost function AddrRows(points: map<Key, TxPoint>, addrs: set<Addr>, code: Txid): set<Key> {
    set k | k in points && points[k].addr in addrs && points[k].badgeCode == code
  }

  /** Of them, the rows not marked spent. */
  ghost function UnmarkedRows(points: map<Key, TxPoint>, addrs: set<Addr>, code: Txid): set<Key> {
    set k | k in AddrRows(points, addrs, code) && !Marked(points, k)
  }

  datatype AddrInfo = AddrInfo(appid: string, userid: int, userIndex: int, timestamp: int)

  predicate IsUser(info: AddrInfo, appid: string, userid: int, userIndex: int) {
    info.appid == appid && info.userid == userid && info.userIndex == userIndex
  }

  function UserAddrs(addrInfos: map<Addr, AddrInfo>, appid: string, userid: int, userIndex: int): set<Addr> {
    set a | a in addrInfos && IsUser(addrInfos[a], appid, userid, userIndex)
  }

  /** An address belongs to exactly one triple of application, user and user index: the one its row names. */
  lemma OneUser(addrInfos: map<Addr, AddrInfo>, a: Addr, appid: string, userid: int, userIndex: int)
    ensures a in UserAddrs(addrInfos, appid, userid, userIndex) <==>
            && a in addrInfos && addrInfos[a].appid == appid
            && addrInfos[a].userid == userid && addrInfos[a].userIndex == userIndex
  {
  }

  /** Different triples share no address, and every address of the table is some triple's. */
  lemma UsersPartition(addrInfos: map<Addr, AddrInfo>)
    ensures forall appid, userid, userIndex, appid', userid', userIndex' |
              appid != appid' || userid != userid' || userIndex != userIndex' ::
              UserAddrs(addrInfos, appid, userid, userIndex) !! UserAddrs(addrInfos, appid', userid', userIndex')
    ensures forall a | a in addrInfos ::
              a in UserAddrs(addrInfos, addrInfos[a].appid, addrInfos[a].userid, addrInfos[a].userIndex)
  {
  }

  /** AddOrUpdateAddrInfo: the address is unique, so an address always belongs to its last user only. */
  class AddrInfoRepository {
    var rows: map<Addr, AddrInfo>

    constructor ()
      ensures rows == map[]
    {
      rows := map[];
    }

    method AddOrUpdateAddrInfo(addr: Addr, info: AddrInfo)
      modifies this
      ensures rows == old(rows)[addr := info]
      ensures forall appid, userid, userIndex ::
                UserAddrs(rows, appid, userid, userIndex) ==
                if appid == info.appid && userid == info.userid && userIndex == info.userIndex
                then UserAddrs(old(rows), appid, userid, userIndex) + {addr}
                else UserAddrs(old(rows), appid, userid, userIndex) - {addr}
    {
      if addr !in rows {
        rows := rows[addr := info];
      } else {
        rows := rows[addr := rows[addr].(appid := info.appid, userid := info.userid,
          userIndex := info.userIndex, timestamp := info.timestamp)];
      }
    }
  }

  /** GetTxPointsByAddr and GetUserTxPoints: the rows of a badge at some addresses, in either selection of states. */
  method QueryRows(points: map<Key, TxPoint>, addrs: set<Addr>, code: Txid, unmarkedOnly: bool)
    returns (rows: seq<TxPoint>)
    requires forall k | k in points :: KeyOf(points[k]) == k
    ensures IsQuery(rows, points, if unmarkedOnly then UnmarkedRows(points, addrs, code)
            else AddrRows(points, addrs, code))
  {
    rows := [];
    ghost var sel := {};
    var todo := points.Keys;
    while todo != {}
      invariant todo <= points.Keys && IsQuery(rows, points, sel)
      invariant sel == (if unmarkedOnly then UnmarkedRows(points, addrs, code)
                else AddrRows(points, addrs, code)) - todo
      decreases todo
    {
      var k :| k in todo;
      var p := points[k];
      todo := todo - {k};
      if p.addr in addrs && p.badgeCode == code && (!unmarkedOnly || p.state == MayBeUnspent) {
        QueryNext(rows, points, sel, k);
        rows := rows + [p];
        sel := sel + {k};
      }
    }
  }

  lemma QueryNext(rows: seq<TxPoint>, points: map<Key, TxPoint>, sel: set<Key>, k: Key)
    requires IsQuery(rows, points, sel) && k in points && k !in sel && KeyOf(points[k]) == k
    ensures IsQuery(rows + [points[k]], points, sel + {k})
  {
    var rows' := rows + [points[k]];
    assert forall p | p in rows :: p in rows';
    assert points[k] in rows';
  }

  lemma QuerySum(rows: seq<TxPoint>, points: map<Key, TxPoint>, sel: set<Key>)
    requires IsQuery(rows, points, sel) && forall k | k in points :: KeyOf(points[k]) == k
    ensures SumValues(rows) == Sum(points, sel)
  {
    forall k | k in sel ensures exists p | p in rows :: KeyOf(p) == k {
      assert points[k] in rows;
    }
    SumOfRows(points, rows, sel);
    SumWithinAll(rows, sel);
  }

  // ----- CalculateUtxos

  /** `p` is a vout that no vin among `rows` spends. */
  ghost predicate IsUtxo(rows: seq<TxPoint>, p: TxPoint) {
    p.kind == Vout && forall q | q in rows && q.kind == Vin :: SpentKey(q) != KeyOf(p)
  }

  ghost function UtxosUpTo(rows: seq<TxPoint>, n: nat): seq<TxPoint>
    requires n <= |rows|
  {
    if n == 0 then []
    else UtxosUpTo(rows, n - 1) + if IsUtxo(rows, rows[n - 1]) then [rows[n - 1]] else []
  }

  lemma {:induction false} UtxoMembers(rows: seq<TxPoint>, n: nat)
    requires n <= |rows|
    ensures forall p :: p in UtxosUpTo(rows, n) <==> p in rows[..n] && IsUtxo(rows, p)
  {
    if n > 0 {
      UtxoMembers(rows, n - 1);
      assert rows[..n] == rows[..n - 1] + [rows[n - 1]];
    }
  }

  /** The unspent outputs among some rows, in their order. */
  ghost function UtxosIn(rows: seq<TxPoint>): seq<TxPoint> {
    UtxosUpTo(rows, |rows|)
  }

  function SpentName(q: TxPoint): string {
    GenerateStrFromStrInt(q.preTxid, q.preIndex)
  }

  lemma NameIsKey(q: TxPoint, p: TxPoint)
    requires p.kind == Vout
    ensures SpentName(q) == GenerateStrFromStrInt(p.txid, p.index) <==> SpentKey(q) == KeyOf(p)
  {
    KeyInjective(q.preTxid, q.preIndex, p.txid, p.index);
  }

  method CalculateUtxos(txPoints: seq<TxPoint>) returns (result: seq<TxPoint>)
    ensures result == UtxosIn(txPoints)
  {
    hide IsUtxo, GenerateStrFromStrInt;
    var spentUtxoSet: map<string, bool> := map[];
    for n := 0 to |txPoints|
      invariant spentUtxoSet.Keys == SpentNames(txPoints, n)
    {
      if txPoints[n].kind != Vin {
        continue;
      }
      spentUtxoSet := spentUtxoSet[SpentName(txPoints[n]) := true];
    }
    hide SpentNames;
    result := [];
    for n := 0 to |txPoints|
      invariant result == UtxosUpTo(txPoints, n)
    {
      var p := txPoints[n];
      UtxoByName(txPoints, p);
      if p.kind != Vout {
        continue;
      }
      if GenerateStrFromStrInt(p.txid, p.index) in spentUtxoSet {
        continue;
      }
      result := result + [p];
    }
  }

  /** The textual names of the outpoints that the first `n` rows spend. */
  ghost function SpentNames(rows: seq<TxPoint>, n: nat): set<string>
    requires n <= |rows|
  {
    if n == 0 then {}
    else SpentNames(rows, n - 1) + if rows[n - 1].kind == Vin then {SpentName(rows[n - 1])} else {}
  }

  lemma {:induction false} SpentNamesMembers(rows: seq<TxPoint>, n: nat, p: TxPoint)
    requires n <= |rows| && p.kind == Vout
    ensures GenerateStrFromStrInt(p.txid, p.index) in SpentNames(rows, n) <==>
            exists m | 0 <= m < n :: rows[m].kind == Vin && SpentKey(rows[m]) == KeyOf(p)
  {
    hide GenerateStrFromStrInt;
    if n > 0 {
      SpentNamesMembers(rows, n - 1, p);
      NameIsKey(rows[n - 1], p);
      hide SpentName;
    }
  }

  lemma UtxoByName(rows: seq<TxPoint>, p: TxPoint)
    ensures p.kind == Vout ==> (IsUtxo(rows, p) <==>
            GenerateStrFromStrInt(p.txid, p.index) !in SpentNames(rows, |rows|))
    ensures p.kind != Vout ==> !IsUtxo(rows, p)
  {
    hide GenerateStrFromStrInt;
    if p.kind == Vout {
      SpentNamesMembers(rows, |rows|, p);
      hide SpentNames;
      if !IsUtxo(rows, p) {
        var q :| q in rows && q.kind == Vin && SpentKey(q) == KeyOf(p);
        var m :| 0 <= m < |rows| && rows[m] == q;
      }
    }
  }

  method SumTxPoints(txPoints: seq<TxPoint>) returns (sum: int)
    ensures sum == Wrap(SumValues(txPoints))
  {
    sum := 0;
    for n := 0 to |txPoints|
      invariant sum == Wrap(SumValues(txPoints[..n]))
    {
      assert txPoints[..n + 1][..n] == txPoints[..n];
      WrapAdd(SumValues(txPoints[..n]), txPoints[n].value);
      sum := Add64(sum, txPoints[n].value);
    }
    assert txPoints[..|txPoints|] == txPoints;
  }

  // ----- local views are the global unspent set

  /** Marking rows spent never changes which outputs count as unspent. */
  lemma PruningIsInvisible(c: Chain, s: System)
    requires Reachable(c, s)
    ensures var points := s.ledger.points;
            Unspent(points) ==
            set k | && k in points && k.kind == Vout && !Marked(points, k)
                    && (forall j | j in points && j.kind == Vin && !Marked(points, j) :: SpentKey(points[j]) != k)
  {
    ReachableOk(c, s);
    var points := s.ledger.points;
    forall k | k in points && k.kind == Vout
      ensures !IsSpent(points, k) <==>
              !Marked(points, k) && forall j | j in points && j.kind == Vin && !Marked(points, j) ::
                SpentKey(points[j]) != k
    {
      UnmarkedDecides(points, k);
    }
  }

  lemma UnmarkedDecides(points: map<Key, TxPoint>, k: Key)
    requires MarksOk(points) && k in points && k.kind == Vout
    ensures !IsSpent(points, k) <==>
            !Marked(points, k) && forall j | j in points && j.kind == Vin && !Marked(points, j) ::
              SpentKey(points[j]) != k
  {
    if IsSpent(points, k) {
      var j :| j in points && j.kind == Vin && SpentKey(points[j]) == k;
      if Marked(points, j) {
        assert Marked(points, k);
      }
    }
  }

  lemma StoredKeyed(c: Chain, points: map<Key, TxPoint>)
    requires Faithful(c, points)
    ensures forall k | k in points :: KeyOf(points[k]) == k
  {
    assert forall k | k in points :: RowOk(c, k, points[k]);
  }

  /** A stored vin is in a view exactly when the vout it spends is. */
  lemma ViewsAreSpendClosed(c: Chain, points: map<Key, TxPoint>, addrs: set<Addr>, code: Txid)
    requires StoreOk(c, points)
    ensures SpendClosed(points, AddrRows(points, addrs, code))
  {
    forall k | k in points && k.kind == Vin
      ensures k in AddrRows(points, addrs, code) <==> SpentKey(points[k]) in AddrRows(points, addrs, code)
    {
      StoredCopies(c, points, k);
    }
  }

  /** One row: CalculateUtxos over the unmarked rows of a view keeps it exactly when it is globally unspent. */
  lemma UtxoIsUnspent(c: Chain, l: Ledger, addrs: set<Addr>, code: Txid, rows: seq<TxPoint>, k: Key)
    requires LedgerOk(c, l) && IsQuery(rows, l.points, UnmarkedRows(l.points, addrs, code))
    requires k in UnmarkedRows(l.points, addrs, code) && k.kind == Vout && KeyOf(l.points[k]) == k
    ensures IsUtxo(rows, l.points[k]) <==> !IsSpent(l.points, k)
  {
    var points := l.points;
    if IsSpent(points, k) {
      var j :| j in points && j.kind == Vin && SpentKey(points[j]) == k;
      StoredCopies(c, points, j);
      assert !Marked(points, j);
      assert j in UnmarkedRows(points, addrs, code) && points[j] in rows;
      assert RowOk(c, j, points[j]);
    } else {
      forall q | q in rows && q.kind == Vin ensures SpentKey(q) != KeyOf(points[k]) {
        assert KeyOf(q) in points && points[KeyOf(q)] == q && KeyOf(q).kind == Vin;
      }
    }
  }

  /**
   * Local views are the global unspent set: over the unmarked rows of any addresses and badge,
   * CalculateUtxos yields exactly the globally unspent outputs of those addresses and that badge.
   */
  lemma LocalViewIsGlobal(c: Chain, l: Ledger, addrs: set<Addr>, code: Txid, rows: seq<TxPoint>)
    requires LedgerOk(c, l) && IsQuery(rows, l.points, UnmarkedRows(l.points, addrs, code))
    ensures IsQuery(UtxosIn(rows), l.points, AddrRows(l.points, addrs, code) * Unspent(l.points))
  {
    var points, utxos := l.points, UtxosIn(rows);
    var unspent := AddrRows(points, addrs, code) * Unspent(points);
    StoredKeyed(c, points);
    UtxosDistinct(rows, |rows|);
    UtxoMembers(rows, |rows|);
    assert rows[..|rows|] == rows;
    forall p | p in utxos ensures KeyOf(p) in unspent && points[KeyOf(p)] == p {
      UtxoIsUnspent(c, l, addrs, code, rows, KeyOf(p));
    }
    forall k | k in unspent ensures points[k] in utxos {
      assert !Marked(points, k);
      UtxoIsUnspent(c, l, addrs, code, rows, k);
    }
  }

  lemma {:induction false} UtxosDistinct(rows: seq<TxPoint>, n: nat)
    requires n <= |rows| && DistinctKeys(rows)
    ensures DistinctKeys(UtxosUpTo(rows, n))
  {
    if n > 0 {
      UtxosDistinct(rows, n - 1);
      UtxoMembers(rows, n - 1);
      hide IsUtxo;
      forall p | p in UtxosUpTo(rows, n - 1) ensures KeyOf(p) != KeyOf(rows[n - 1]) {
        var m :| 0 <= m < n - 1 && rows[..n - 1][m] == p;
        assert rows[m] == p;
      }
    }
  }

  /** The balance of some addresses in a badge: what is globally unspent there. */
  ghost function Balance(points: map<Key, TxPoint>, addrs: set<Addr>, code: Txid): int {
    Sum(points, AddrRows(points, addrs, code) * Unspent(points))
  }

  lemma BalanceBounds(c: Chain, l: Ledger, addrs: set<Addr>, code: Txid)
    requires LedgerOk(c, l) && NoDoubleSpend(c)
    ensures 0 <= Balance(l.points, addrs, code) <= UnspentTotal(l.points, code) <= Issued(c, code) <= MAX_INT64
  {
    var points := l.points;
    LedgerConserves(c, l, code);
    forall k | k in CodeRows(points, code) * Unspent(points) ensures points[k].value >= 0 {
      StoredKinds(c, points, k);
    }
    SumNonNegative(points, AddrRows(points, addrs, code) * Unspent(points));
    SumSubset(points, AddrRows(points, addrs, code) * Unspent(points), CodeRows(points, code) * Unspent(points));
  }

  /** GetAddrBalance and GetUserBalance, on a reachable ledger: the exact balance, no int64 overflow. */
  lemma BalanceIsExact(c: Chain, l: Ledger, addrs: set<Addr>, code: Txid, rows: seq<TxPoint>)
    requires LedgerOk(c, l) && NoDoubleSpend(c) && IsQuery(rows, l.points, UnmarkedRows(l.points, addrs, code))
    ensures Wrap(SumValues(UtxosIn(rows))) == Balance(l.points, addrs, code)
  {
    LocalViewIsGlobal(c, l, addrs, code, rows);
    StoredKeyed(c, l.points);
    QuerySum(UtxosIn(rows), l.points, AddrRows(l.points, addrs, code) * Unspent(l.points));
    BalanceBounds(c, l, addrs, code);
  }

  ghost function SumOfBalances(points: map<Key, TxPoint>, addrs: set<Addr>, code: Txid): int {
    if addrs == {} then 0 else
    var a :| a in addrs; Balance(points, {a}, code) + SumOfBalances(points, addrs - {a}, code)
  }

  /** A user's balance is the sum of the balances of the user's addresses. */
  lemma {:induction false} UserBalanceIsSum(points: map<Key, TxPoint>, addrs: set<Addr>, code: Txid)
    ensures Balance(points, addrs, code) == SumOfBalances(points, addrs, code)
    decreases addrs
  {
    if addrs == {} {
      assert AddrRows(points, addrs, code) * Unspent(points) == {};
    } else {
      var a :| a in addrs && SumOfBalances(points, addrs, code) ==
        Balance(points, {a}, code) + SumOfBalances(points, addrs - {a}, code);
      UserBalanceIsSum(points, addrs - {a}, code);
      var u, v := AddrRows(points, {a}, code) * Unspent(points), AddrRows(points, addrs - {a}, code) * Unspent(points);
      assert u + v == AddrRows(points, addrs, code) * Unspent(points);
      SumUnion(points, u, v);
      assert Balance(points, addrs, code) == Sum(points, u) + Sum(points, v);
      assert Balance(points, {a}, code) == Sum(points, u) && Balance(points, addrs - {a}, code) == Sum(points, v);
    }
  }
}
