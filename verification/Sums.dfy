/** Sums of row values over sets of keys and over lists of rows. */
module Sums {
  import opened Int64
  import opened Model
  import opened Store

  ghost function Sum(points: map<Key, TxPoint>, s: set<Key>): int
    requires s <= points.Keys
  {
    if s == {} then 0 else var k :| k in s; points[k].value + Sum(points, s - {k})
  }

  lemma {:induction false} SumPick(points: map<Key, TxPoint>, s: set<Key>, k: Key)
    requires s <= points.Keys && k in s
    ensures Sum(points, s) == points[k].value + Sum(points, s - {k})
    decreases s
  {
    var j :| j in s && Sum(points, s) == points[j].value + Sum(points, s - {j});
    if j != k {
      SumPick(points, s - {j}, k);
      SumPick(points, s - {k}, j);
      assert s - {j} - {k} == s - {k} - {j};
    }
  }

  lemma {:induction false} SumUnion(points: map<Key, TxPoint>, a: set<Key>, b: set<Key>)
    requires a <= points.Keys && b <= points.Keys && a !! b
    ensures Sum(points, a + b) == Sum(points, a) + Sum(points, b)
    decreases a
  {
    if a == {} {
      assert a + b == b;
    } else {
      var k :| k in a;
      SumPick(points, a, k);
      SumPick(points, a + b, k);
      assert a + b - {k} == (a - {k}) + b;
      SumUnion(points, a - {k}, b);
    }
  }

  lemma {:induction false} SumNonNegative(points: map<Key, TxPoint>, s: set<Key>)
    requires s <= points.Keys && forall k | k in s :: points[k].value >= 0
    ensures Sum(points, s) >= 0
    decreases s
  {
    if s != {} {
      var k :| k in s;
      SumPick(points, s, k);
      SumNonNegative(points, s - {k});
    }
  }

  lemma {:induction false} SumNonPositive(points: map<Key, TxPoint>, s: set<Key>)
    requires s <= points.Keys && forall k | k in s :: points[k].value <= 0
    ensures Sum(points, s) <= 0
    decreases s
  {
    if s != {} {
      var k :| k in s;
      SumPick(points, s, k);
      SumNonPositive(points, s - {k});
    }
  }

  lemma SumSubset(points: map<Key, TxPoint>, a: set<Key>, b: set<Key>)
    requires a <= b <= points.Keys && forall k | k in b :: points[k].value >= 0
    ensures Sum(points, a) <= Sum(points, b)
  {
    SumNonNegative(points, b - a);
    SumUnion(points, a, b - a);
    assert a + (b - a) == b;
  }

  // ----- lists of rows

  function SumValues(ps: seq<TxPoint>): int {
    if ps == [] then 0 else SumValues(ps[..|ps| - 1]) + ps[|ps| - 1].value
  }

  /** The part of SumValues whose keys are in `s`. */
  ghost function SumWithin(ps: seq<TxPoint>, s: set<Key>): int {
    if ps == [] then 0
    else SumWithin(ps[..|ps| - 1], s) + if KeyOf(ps[|ps| - 1]) in s then ps[|ps| - 1].value else 0
  }

  ghost predicate DistinctKeys(ps: seq<TxPoint>) {
    forall i, j | 0 <= i < j < |ps| :: KeyOf(ps[i]) != KeyOf(ps[j])
  }

  lemma {:induction false} SumWithinFewer(ps: seq<TxPoint>, s: set<Key>, k: Key)
    requires forall p | p in ps :: KeyOf(p) != k
    ensures SumWithin(ps, s) == SumWithin(ps, s - {k})
  {
    if ps != [] {
      SumWithinFewer(ps[..|ps| - 1], s, k);
    }
  }

  /** Rows `ps` cover the keys `s`: the set's sum is the list's, restricted to the set. */
  lemma {:induction false} SumOfRows(points: map<Key, TxPoint>, ps: seq<TxPoint>, s: set<Key>)
    requires s <= points.Keys && DistinctKeys(ps)
    requires forall k | k in s :: exists p | p in ps :: KeyOf(p) == k
    requires forall p | p in ps && KeyOf(p) in s :: points[KeyOf(p)].value == p.value
    ensures Sum(points, s) == SumWithin(ps, s)
    decreases |ps|
  {
    if ps != [] {
      var n := |ps| - 1;
      var last, rest := ps[n], ps[..n];
      var s' := s - {KeyOf(last)};
      forall k | k in s' ensures exists p | p in rest :: KeyOf(p) == k {
        var p :| p in ps && KeyOf(p) == k;
        assert p in rest;
      }
      SumOfRows(points, rest, s');
      SumWithinFewer(rest, s, KeyOf(last));
      if KeyOf(last) in s {
        SumPick(points, s, KeyOf(last));
      } else {
        assert s' == s;
      }
    }
  }

  lemma {:induction false} SumWithinAll(ps: seq<TxPoint>, s: set<Key>)
    ensures (forall p | p in ps :: KeyOf(p) in s) ==> SumWithin(ps, s) == SumValues(ps)
    ensures (forall p | p in ps :: p.value >= 0) ==> SumWithin(ps, s) <= SumValues(ps)
  {
    if ps != [] {
      SumWithinAll(ps[..|ps| - 1], s);
    }
  }

  lemma {:induction false} SumValuesConcat(a: seq<TxPoint>, b: seq<TxPoint>)
    ensures SumValues(a + b) == SumValues(a) + SumValues(b)
    decreases |b|
  {
    if b == [] {
      assert a + b == a;
    } else {
      assert (a + b)[..|a + b| - 1] == a + b[..|b| - 1];
      SumValuesConcat(a, b[..|b| - 1]);
    }
  }

  lemma {:induction false} SumValuesSigns(ps: seq<TxPoint>)
    ensures (forall p | p in ps :: p.value >= 0) ==> SumValues(ps) >= 0
    ensures (forall p | p in ps :: p.value <= 0) ==> SumValues(ps) <= 0
  {
    if ps != [] {
      SumValuesSigns(ps[..|ps| - 1]);
    }
  }

  /** The int64 accumulation of ParseMsgTx is the wrapped exact total. */
  lemma {:induction false} ConsumedWraps(vins: seq<TxPoint>)
    ensures Consumed(vins) == Wrap(-SumValues(vins))
  {
    if vins != [] {
      ConsumedWraps(vins[..|vins| - 1]);
      WrapAdd(-SumValues(vins[..|vins| - 1]), -vins[|vins| - 1].value);
    }
  }

  lemma ConsumedExact(vins: seq<TxPoint>)
    requires InRange(-SumValues(vins))
    ensures Consumed(vins) == -SumValues(vins)
  {
    ConsumedWraps(vins);
  }

  // ----- what vin rows spend

  ghost function SpentKeys(vins: seq<TxPoint>): set<Key> {
    set p | p in vins :: SpentKey(p)
  }

  ghost predicate DistinctSpends(vins: seq<TxPoint>) {
    forall i, j | 0 <= i < j < |vins| :: SpentKey(vins[i]) != SpentKey(vins[j])
  }

  lemma {:induction false} SumOfSpent(points: map<Key, TxPoint>, vins: seq<TxPoint>)
    requires DistinctSpends(vins)
    requires forall p | p in vins :: SpentKey(p) in points && points[SpentKey(p)].value == -p.value
    ensures Sum(points, SpentKeys(vins)) == -SumValues(vins)
  {
    if vins != [] {
      var n := |vins| - 1;
      var last, rest := vins[n], vins[..n];
      SumOfSpent(points, rest);
      SpentKeysLast(vins);
      assert last in vins;
      hide SpentKeys, DistinctSpends, Sum;
      SumPick(points, SpentKeys(vins), SpentKey(last));
    }
  }

  lemma SpentKeysLast(vins: seq<TxPoint>)
    requires DistinctSpends(vins) && vins != []
    ensures var n := |vins| - 1;
            && SpentKey(vins[n]) in SpentKeys(vins)
            && SpentKeys(vins) - {SpentKey(vins[n])} == SpentKeys(vins[..n])
            && forall p | p in vins[..n] :: p in vins
  {
    var n := |vins| - 1;
    var last, rest := vins[n], vins[..n];
    assert vins == rest + [last];
    forall k | k in SpentKeys(rest) ensures k != SpentKey(last) {
      var p :| p in rest && SpentKey(p) == k;
      var i :| 0 <= i < n && vins[i] == p;
    }
  }

  ghost function OfCode(ps: seq<TxPoint>, b: Txid): seq<TxPoint> {
    if ps == [] then []
    else OfCode(ps[..|ps| - 1], b) + if ps[|ps| - 1].badgeCode == b then [ps[|ps| - 1]] else []
  }

  lemma {:induction false} OfCodeMembers(ps: seq<TxPoint>, b: Txid)
    ensures forall p | p in OfCode(ps, b) :: p in ps && p.badgeCode == b
  {
    if ps != [] {
      OfCodeMembers(ps[..|ps| - 1], b);
    }
  }

  lemma {:induction false} OfCodeAll(ps: seq<TxPoint>, b: Txid)
    requires forall p | p in ps :: p.badgeCode == b
    ensures OfCode(ps, b) == ps
  {
    if ps != [] {
      OfCodeAll(ps[..|ps| - 1], b);
      assert ps == ps[..|ps| - 1] + [ps[|ps| - 1]];
    }
  }

  lemma {:induction false} OfCodeDistinct(ps: seq<TxPoint>, b: Txid)
    requires DistinctSpends(ps)
    ensures DistinctSpends(OfCode(ps, b))
  {
    if ps != [] {
      var n := |ps| - 1;
      OfCodeDistinct(ps[..n], b);
      OfCodeMembers(ps[..n], b);
      forall p | p in OfCode(ps[..n], b) ensures SpentKey(p) != SpentKey(ps[n]) {
        assert p in ps[..n];
      }
    }
  }

  // ----- unspent rows

  ghost function Unspent(points: map<Key, TxPoint>): set<Key> {
    set k | k in points && k.kind == Vout && !IsSpent(points, k)
  }

  /** Each stored vin copies, negated, a stored vout, which no other stored vin spends. */
  ghost predicate SpendsOnce(points: map<Key, TxPoint>) {
    && (forall k | k in points && k.kind == Vin ::
          SpentKey(points[k]) in points && points[SpentKey(points[k])].value == -points[k].value)
    && (forall j, k | j in points && k in points && j.kind == Vin && k.kind == Vin
          && SpentKey(points[j]) == SpentKey(points[k]) :: j == k)
  }

  /** A vin is in `rows` exactly when the vout it spends is. */
  ghost predicate SpendClosed(points: map<Key, TxPoint>, rows: set<Key>) {
    rows <= points.Keys && forall k | k in points && k.kind == Vin :: k in rows <==> SpentKey(points[k]) in rows
  }

  ghost function VinsIn(rows: set<Key>): set<Key> {
    set k | k in rows && k.kind == Vin
  }

  ghost function SpentBy(points: map<Key, TxPoint>, vins: set<Key>): set<Key>
    requires vins <= points.Keys
  {
    set k | k in vins :: SpentKey(points[k])
  }

  lemma {:induction false} SumOfVins(points: map<Key, TxPoint>, vins: set<Key>)
    requires SpendsOnce(points) && vins <= points.Keys && forall k | k in vins :: k.kind == Vin
    ensures SpentBy(points, vins) <= points.Keys
    ensures Sum(points, vins) == -Sum(points, SpentBy(points, vins))
    decreases vins
  {
    if vins == {} {
      assert SpentBy(points, vins) == {};
    } else {
      var k :| k in vins;
      SumOfVins(points, vins - {k});
      SumPick(points, vins, k);
      SpentByPick(points, vins, k);
      hide SpendsOnce, SpentBy, Sum;
      SumPick(points, SpentBy(points, vins), SpentKey(points[k]));
    }
  }

  lemma SpentByPick(points: map<Key, TxPoint>, vins: set<Key>, k: Key)
    requires SpendsOnce(points) && vins <= points.Keys && k in vins && forall k | k in vins :: k.kind == Vin
    ensures SpentBy(points, vins) <= points.Keys && SpentKey(points[k]) in SpentBy(points, vins)
    ensures SpentBy(points, vins) - {SpentKey(points[k])} == SpentBy(points, vins - {k})
    ensures points[SpentKey(points[k])].value == -points[k].value
  {
  }

  lemma RowsSplit(points: map<Key, TxPoint>, rows: set<Key>)
    requires SpendsOnce(points) && SpendClosed(points, rows)
    ensures var spent, unspent := SpentBy(points, VinsIn(rows)), rows * Unspent(points);
            rows == VinsIn(rows) + (spent + unspent) && spent !! unspent && VinsIn(rows) !! spent + unspent
  {
    var spent, unspent := SpentBy(points, VinsIn(rows)), rows * Unspent(points);
    forall k | k in rows && k.kind == Vout && IsSpent(points, k) ensures k in spent {
      var j :| j in points && j.kind == Vin && SpentKey(points[j]) == k;
      assert j in VinsIn(rows);
    }
    forall k | k in spent ensures k in rows && IsSpent(points, k) && k.kind == Vout {
      var j :| j in VinsIn(rows) && SpentKey(points[j]) == k;
      assert j in points && j.kind == Vin;
    }
  }

  /** The total of all rows, vins negative, is the total of the unspent vouts. */
  lemma NetIsUnspent(points: map<Key, TxPoint>, rows: set<Key>)
    requires SpendsOnce(points) && SpendClosed(points, rows)
    ensures Sum(points, rows) == Sum(points, rows * Unspent(points))
  {
    var vins, unspent := VinsIn(rows), rows * Unspent(points);
    SumOfVins(points, vins);
    RowsSplit(points, rows);
    SumUnion(points, SpentBy(points, vins), unspent);
    SumUnion(points, vins, SpentBy(points, vins) + unspent);
  }
}
