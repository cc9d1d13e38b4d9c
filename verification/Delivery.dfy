/** Coin selection is complete, and what the wallet builds the interpreter reads as asked. */
module Delivery {
  import opened Int64
  import opened Script
  import opened Model
  import opened Chains
  import opened Store
  import opened Sums
  import opened Conservation
  import opened Views
  import opened Wallet

  // ----- exact totals

  function AmountsTotal(amounts: seq<AddrAmount>): int {
    if amounts == [] then 0 else AmountsTotal(amounts[..|amounts| - 1]) + amounts[|amounts| - 1].amount
  }

  /** What a request takes from the user: its amounts and what it burns. */
  function Total(request: Request): int {
    request.burn + AmountsTotal(request.amounts)
  }

  lemma {:induction false} ClaimWraps(amounts: seq<AddrAmount>, burn: int, n: nat)
    requires n <= |amounts| && InRange(burn)
    ensures Claim64(amounts, burn, n) == Wrap(burn + AmountsTotal(amounts[..n]))
  {
    if n > 0 {
      ClaimWraps(amounts, burn, n - 1);
      assert amounts[..n][..n - 1] == amounts[..n - 1];
      WrapAdd(burn + AmountsTotal(amounts[..n - 1]), amounts[n - 1].amount);
    }
  }

  lemma {:induction false} GatheredWraps(utxos: seq<TxPoint>, n: nat)
    requires n <= |utxos|
    ensures Gathered64(utxos, n) == Wrap(SumValues(utxos[..n]))
  {
    if n > 0 {
      GatheredWraps(utxos, n - 1);
      assert utxos[..n][..n - 1] == utxos[..n - 1];
      WrapAdd(SumValues(utxos[..n - 1]), utxos[n - 1].value);
    }
  }

  lemma {:induction false} PrefixSums(utxos: seq<TxPoint>, m: nat, n: nat)
    requires m <= n <= |utxos| && forall p | p in utxos :: p.value >= 0
    ensures 0 <= SumValues(utxos[..m]) <= SumValues(utxos[..n])
    decreases n
  {
    if m < n {
      assert utxos[..n][..n - 1] == utxos[..n - 1];
      PrefixSums(utxos, m, n - 1);
    } else if n > 0 {
      assert utxos[..n][..n - 1] == utxos[..n - 1];
      PrefixSums(utxos, n - 1, n - 1);
    }
  }

  // ----- what the user has

  /** `utxos` are outputs of one badge that the store holds, with exact int64 totals. */
  ghost predicate Funds(points: map<Key, TxPoint>, code: Txid, utxos: seq<TxPoint>) {
    && (forall p | p in utxos ::
          p.kind == Vout && p.badgeCode == code && p.value >= 0 && KeyOf(p) in points && points[KeyOf(p)] == p)
    && SumValues(utxos) <= MAX_INT64
  }

  lemma UserFunds(c: Chain, l: Ledger, addrs: set<Addr>, code: Txid, rows: seq<TxPoint>)
    requires LedgerOk(c, l) && NoDoubleSpend(c) && IsQuery(rows, l.points, UnmarkedRows(l.points, addrs, code))
    ensures Funds(l.points, code, UtxosIn(rows)) && SumValues(UtxosIn(rows)) == Balance(l.points, addrs, code)
  {
    var utxos := UtxosIn(rows);
    LocalViewIsGlobal(c, l, addrs, code, rows);
    StoredKeyed(c, l.points);
    QuerySum(utxos, l.points, AddrRows(l.points, addrs, code) * Unspent(l.points));
    BalanceBounds(c, l, addrs, code);
    forall p | p in utxos ensures p.kind == Vout && p.badgeCode == code && p.value >= 0 {
      StoredKinds(c, l.points, KeyOf(p));
    }
  }

  lemma FundsExact(points: map<Key, TxPoint>, code: Txid, utxos: seq<TxPoint>, n: nat)
    requires Funds(points, code, utxos) && n <= |utxos|
    ensures Gathered64(utxos, n) == SumValues(utxos[..n]) && 0 <= SumValues(utxos[..n]) <= SumValues(utxos)
  {
    GatheredWraps(utxos, n);
    PrefixSums(utxos, n, |utxos|);
    assert utxos[..|utxos|] == utxos;
  }

  /** The shortest prefix of `utxos` that covers `target`. */
  ghost predicate IsShortestCover(utxos: seq<TxPoint>, target: int, n: nat) {
    && n <= |utxos| && SumValues(utxos[..n]) >= target
    && forall k | 0 <= k < n :: SumValues(utxos[..k]) < target
  }

  predicate WellFormed(request: Request) {
    request.change.Decoded? && AmountsOk(request.amounts) && 0 <= request.burn <= MAX_INT64
  }

  lemma SelectionCovers(points: map<Key, TxPoint>, code: Txid, utxos: seq<TxPoint>, request: Request)
    requires Funds(points, code, utxos) && WellFormed(request) && 0 <= Total(request) <= MAX_INT64
    ensures var n := PickFrom(utxos, Target64(request), 0);
            && Target64(request) == Total(request)
            && Left64(utxos, request) == SumValues(utxos[..n]) - Total(request)
            && (Left64(utxos, request) < 0 <==> SumValues(utxos) < Total(request))
            && (Left64(utxos, request) >= 0 ==> IsShortestCover(utxos, Total(request), n))
  {
    var target, n := Target64(request), PickFrom(utxos, Target64(request), 0);
    ClaimWraps(request.amounts, request.burn, |request.amounts|);
    assert request.amounts[..|request.amounts|] == request.amounts;
    forall k | 0 <= k <= |utxos|
      ensures Gathered64(utxos, k) == SumValues(utxos[..k]) && 0 <= SumValues(utxos[..k]) <= SumValues(utxos)
    {
      FundsExact(points, code, utxos, k);
    }
    hide Gathered64, PickFrom, Claim64, Funds, Wrap;
    assert utxos[..|utxos|] == utxos;
  }

  /**
   * Coin selection is complete: for a well-formed request whose total fits int64, "not enough badge" is
   * reported exactly when the user's balance is below the total; otherwise the transaction spends the
   * shortest prefix of the user's unspent outputs that covers it.
   */
  lemma CoinSelectionIsComplete(c: Chain, l: Ledger, addrs: set<Addr>, code: Txid, rows: seq<TxPoint>, request: Request)
    requires LedgerOk(c, l) && NoDoubleSpend(c) && IsQuery(rows, l.points, UnmarkedRows(l.points, addrs, code))
    requires WellFormed(request) && 0 <= Total(request) <= MAX_INT64
    ensures var utxos, r := UtxosIn(rows), Build(UtxosIn(rows), request);
            if Balance(l.points, addrs, code) < Total(request) then r == NotEnoughBadge
            else r.Built? && |r.usedVins| <= |utxos| && r.usedVins == utxos[..|r.usedVins|]
                 && IsShortestCover(utxos, Total(request), |r.usedVins|)
  {
    hide CreateBadgeLockScript, PickFrom, UtxosIn, IsQuery;
    UserFunds(c, l, addrs, code, rows);
    SelectionCovers(l.points, code, UtxosIn(rows), request);
  }

  // ----- the finished transaction as the interpreter sees it

  /** The outpoints of the badge inputs among the first `n`, in order. */
  function BadgePrevs(ins: seq<TxIn>, n: nat): seq<OutPoint>
    requires n <= |ins|
  {
    if n == 0 then [] else BadgePrevs(ins, n - 1) + if IsBadgeVin(ins[n - 1]) then [ins[n - 1].prev] else []
  }

  /** The badge outputs from output `j` on, in order, with the addresses the parser makes of them. */
  function BadgeOuts(outs: seq<TxOut>, j: nat): seq<Payment>
    requires j <= |outs|
    decreases |outs| - j
  {
    if j == |outs| then [] else
    match ParseBadgeVoutScript(outs[j].script)
    case None => BadgeOuts(outs, j + 1)
    case Some(out) => [Payment(P2pkh(out.address), out.value)] + BadgeOuts(outs, j + 1)
  }

  /**
   * `tx` finishes `draft`: the drafted inputs carry the badge flag, in their order, and other inputs
   * and outputs may be added anywhere as long as they are not badge ones.
   */
  ghost predicate Finishes(tx: MsgTx, draft: UnfinishedTx) {
    BadgePrevs(tx.ins, |tx.ins|) == draft.ins && BadgeOuts(tx.outs, 0) == BadgeOuts(draft.outs, 0)
  }

  function PaymentsTotal(payments: seq<Payment>): int {
    if payments == [] then 0 else payments[0].value + PaymentsTotal(payments[1..])
  }

  function Payload(vouts: seq<TxPoint>): seq<Payment> {
    seq(|vouts|, i requires 0 <= i < |vouts| => Payment(vouts[i].addr, vouts[i].value))
  }

  // ----- its inputs

  /** Row by row, `vins` spend the stored outputs `spent`. */
  ghost predicate Spend(vins: seq<TxPoint>, spent: seq<TxPoint>) {
    |vins| == |spent| && forall i | 0 <= i < |vins| ::
      vins[i].badgeCode == spent[i].badgeCode && vins[i].value == Neg64(spent[i].value)
  }

  ghost predicate Stored(points: map<Key, TxPoint>, spent: seq<TxPoint>) {
    forall p | p in spent :: p.kind == Vout && KeyOf(p) in points && points[KeyOf(p)] == p
  }

  lemma {:induction false} ScanSpends(l: Ledger, tx: MsgTx, ts: int, n: nat, spent: seq<TxPoint>)
    requires n <= |tx.ins| && Stored(l.points, spent) && BadgePrevs(tx.ins, n) == PrevsOf(spent)
    ensures var scan := ScanVins(l, tx, ts, n);
            scan.Some? && !scan.value.illegal && Spend(scan.value.vins, spent)
  {
    if n > 0 {
      if IsBadgeVin(tx.ins[n - 1]) {
        LastSpent(tx.ins, n - 1, spent);
        var m := |spent| - 1;
        assert spent[m] in spent && VoutKey(tx.ins[n - 1].prev) == KeyOf(spent[m]);
        hide BadgePrevs, PrevsOf, Neg64;
        ScanSpends(l, tx, ts, n - 1, spent[..m]);
      } else {
        assert BadgePrevs(tx.ins, n) == BadgePrevs(tx.ins, n - 1) + [];
        ScanSpends(l, tx, ts, n - 1, spent);
      }
    }
  }

  /** The last badge input spends the last of the outputs, the earlier ones the rest. */
  lemma LastSpent(ins: seq<TxIn>, i: nat, spent: seq<TxPoint>)
    requires i < |ins| && IsBadgeVin(ins[i]) && BadgePrevs(ins, i + 1) == PrevsOf(spent)
    ensures spent != []
    ensures var m := |spent| - 1;
            && OutPoint(spent[m].txid, spent[m].index) == ins[i].prev
            && BadgePrevs(ins, i) == PrevsOf(spent[..m])
  {
    var prevs, m := PrevsOf(spent), |spent| - 1;
    assert prevs == BadgePrevs(ins, i) + [ins[i].prev];
    assert |prevs| == |spent| && prevs[m] == ins[i].prev;
    assert PrevsOf(spent[..m]) == prevs[..m];
  }

  lemma {:induction false} SpendSum(vins: seq<TxPoint>, spent: seq<TxPoint>)
    requires Spend(vins, spent) && forall p | p in spent :: 0 <= p.value <= MAX_INT64
    ensures -SumValues(vins) == SumValues(spent)
  {
    if vins != [] {
      var n := |vins| - 1;
      assert spent[n] in spent;
      SpendSum(vins[..n], spent[..n]);
    }
  }

  // ----- its outputs

  lemma {:induction false} TakeAll(tx: MsgTx, ts: int, code: Txid, budget: int, j: nat)
    requires j <= |tx.outs| && 0 <= budget <= MAX_INT64
    ensures 0 <= PaymentsTotal(BadgeOuts(tx.outs, j))
    ensures var vouts := TakeVouts(tx, ts, code, budget, j);
            if PaymentsTotal(BadgeOuts(tx.outs, j)) <= budget
            then && vouts.Some? && Payload(vouts.value) == BadgeOuts(tx.outs, j)
                 && (forall p | p in vouts.value :: p.badgeCode == code)
            else vouts.None?
    decreases |tx.outs| - j
  {
    hide ParseBadgeVoutScript;
    if j < |tx.outs| {
      match ParseBadgeVoutScript(tx.outs[j].script)
      case None => TakeAll(tx, ts, code, budget, j + 1);
      case Some(out) =>
        BadgeValueRange(tx.outs[j].script);
        assert BadgeOuts(tx.outs, j)[1..] == BadgeOuts(tx.outs, j + 1);
        if out.value <= budget {
          TakeAll(tx, ts, code, budget - out.value, j + 1);
        } else {
          TakeAll(tx, ts, code, 0, j + 1);
        }
    }
  }

  lemma {:induction false} PayloadSum(vouts: seq<TxPoint>)
    ensures PaymentsTotal(Payload(vouts)) == SumValues(vouts)
    decreases |vouts|
  {
    if vouts != [] {
      assert Payload(vouts)[1..] == Payload(vouts[1..]);
      PayloadSum(vouts[1..]);
      assert vouts == [vouts[0]] + vouts[1..];
      SumValuesConcat([vouts[0]], vouts[1..]);
      assert SumValues([vouts[0]]) == vouts[0].value;
    }
  }

  // ----- printed outputs read back

  /** An address the ledger can credit as asked: the parser makes a P2PKH address of 20 bytes, and of nothing else. */
  predicate IsPayable(a: Addr) {
    a.kind == PubKeyHash && |a.hash| == PUBKEY_HASH_LEN
  }

  /** What printed payments are read back as: 20 bytes become a P2PKH address, other lengths are no badge output. */
  function ReadBack(payments: seq<Payment>): seq<Payment> {
    if payments == [] then []
    else (if |payments[0].to.hash| == PUBKEY_HASH_LEN then [Payment(P2pkh(payments[0].to.hash), payments[0].value)]
      else [])
         + ReadBack(payments[1..])
  }

  ghost predicate AllPayable(payments: seq<Payment>) {
    forall p | p in payments :: IsPayable(p.to)
  }

  /** Payments are read back as they were meant exactly when every address is payable. */
  lemma {:induction false} ReadBackIsMeant(payments: seq<Payment>)
    ensures |ReadBack(payments)| <= |payments|
    ensures ReadBack(payments) == payments <==> AllPayable(payments)
  {
    if payments != [] {
      var first, rest := payments[0], payments[1..];
      ReadBackIsMeant(rest);
      assert payments == [first] + rest;
      if |first.to.hash| == PUBKEY_HASH_LEN {
        assert ReadBack(payments)[0] == Payment(P2pkh(first.to.hash), first.value)
          && ReadBack(payments)[1..] == ReadBack(rest);
        assert P2pkh(first.to.hash) == first.to <==> IsPayable(first.to);
      } else {
        assert ReadBack(payments) == ReadBack(rest);
      }
    }
  }

  lemma OutputReadsBack(payment: Payment)
    requires 0 <= payment.value <= MAX_INT64
    ensures ParseBadgeVoutScript(OutputOf(payment).script) ==
            if |payment.to.hash| == PUBKEY_HASH_LEN then Some(BadgeVout(payment.to.hash, payment.value)) else None
  {
    ParserInvertsPrinter(OutputOf(payment).script, payment.to.hash, payment.value);
    if |payment.to.hash| != PUBKEY_HASH_LEN {
      OtherHashLengthsAreNotBadges(payment.to.hash, payment.value);
    }
  }

  lemma {:induction false} OutputsReadBack(payments: seq<Payment>, j: nat)
    requires j <= |payments| && forall p | p in payments :: 0 <= p.value <= MAX_INT64
    ensures BadgeOuts(OutputsOf(payments), j) == ReadBack(payments[j..])
    decreases |payments| - j
  {
    hide ParseBadgeVoutScript, CreateBadgeLockScript;
    if j < |payments| {
      assert payments[j] in payments;
      OutputReadsBack(payments[j]);
      OutputsReadBack(payments, j + 1);
      assert payments[j..][1..] == payments[j + 1..];
    }
  }

  // ----- the interpreter reads what was asked

  /**
   * The transaction delivers: its vouts are exactly `payments`, all of badge `code`, and it destroys
   * exactly `burn`.
   */
  ghost predicate Delivers(inv: TxInventory, code: Txid, payments: seq<Payment>, burn: int) {
    && Payload(inv.vouts) == payments
    && (forall p | p in inv.vouts :: p.badgeCode == code)
    && -SumValues(inv.vins) - SumValues(inv.vouts) == burn
  }

  /** What the interpreter makes of a transaction that spends the stored outputs `used`. */
  ghost predicate ReadAs(inv: TxInventory, used: seq<TxPoint>, txid: Txid, code: Txid, outs: seq<Payment>) {
    var budget := if used == [] then MAX_INT64 else SumValues(used);
    && -SumValues(inv.vins) == SumValues(used)
    && if PaymentsTotal(outs) <= budget
       then Payload(inv.vouts) == outs && forall p | p in inv.vouts :: p.badgeCode == if used == [] then txid else code
       else inv.vouts == []
  }

  lemma ParseFinished(l: Ledger, tx: MsgTx, ts: int, code: Txid, used: seq<TxPoint>)
    requires Funds(l.points, code, used) && BadgePrevs(tx.ins, |tx.ins|) == PrevsOf(used)
    ensures Parse(l, tx, ts).Some? && ReadAs(Parse(l, tx, ts).value, used, tx.txid, code, BadgeOuts(tx.outs, 0))
  {
    hide ParseBadgeVoutScript, FinishParse;
    ScanSpends(l, tx, ts, |tx.ins|, used);
    SpendBudget(l.points, code, ScanVins(l, tx, ts, |tx.ins|).value.vins, used);
    FinishSpends(tx, ts, ScanVins(l, tx, ts, |tx.ins|).value, code, used);
  }

  lemma SpendBudget(points: map<Key, TxPoint>, code: Txid, vins: seq<TxPoint>, used: seq<TxPoint>)
    requires Funds(points, code, used) && Spend(vins, used)
    ensures -SumValues(vins) == SumValues(used) && !MixesBadges(vins)
    ensures vins != [] ==> vins[0].badgeCode == code
    ensures 0 <= BudgetOf(vins) <= MAX_INT64 && BudgetOf(vins) == if used == [] then MAX_INT64 else SumValues(used)
  {
    FundsSum(points, code, used);
    SpendSum(vins, used);
    assert forall i | 0 <= i < |vins| :: used[i] in used && vins[i].badgeCode == code;
    ConsumedWraps(vins);
    hide Funds, Consumed, SumValues, Wrap, Neg64;
  }

  lemma FinishSpends(tx: MsgTx, ts: int, scan: VinScan, code: Txid, used: seq<TxPoint>)
    requires !scan.illegal && !MixesBadges(scan.vins) && (scan.vins == [] <==> used == [])
    requires -SumValues(scan.vins) == SumValues(used) && (scan.vins != [] ==> scan.vins[0].badgeCode == code)
    requires 0 <= BudgetOf(scan.vins) <= MAX_INT64
             && BudgetOf(scan.vins) == if used == [] then MAX_INT64 else SumValues(used)
    ensures ReadAs(FinishParse(tx, ts, scan), used, tx.txid, code, BadgeOuts(tx.outs, 0))
  {
    hide ParseBadgeVoutScript, TakeVouts, BadgeOuts;
    TakeAll(tx, ts, BadgeCodeOf(tx, scan.vins), BudgetOf(scan.vins), 0);
  }

  lemma FundsSum(points: map<Key, TxPoint>, code: Txid, used: seq<TxPoint>)
    requires Funds(points, code, used)
    ensures 0 <= SumValues(used) <= MAX_INT64 && forall p | p in used :: p.value <= MAX_INT64
  {
    SumValuesSigns(used);
    hide SumValues;
    forall p | p in used ensures p.value <= MAX_INT64 {
      var n :| 0 <= n < |used| && used[n] == p;
      ElementBelowSum(used, n);
    }
  }

  lemma ElementBelowSum(used: seq<TxPoint>, n: nat)
    requires n < |used| && forall p | p in used :: p.value >= 0
    ensures used[n].value <= SumValues(used)
  {
    var upTo := used[..n + 1];
    assert upTo[..n] == used[..n] && upTo[n] == used[n];
    assert SumValues(upTo) == SumValues(used[..n]) + used[n].value;
    hide SumValues;
    PrefixSums(used, n + 1, |used|);
    PrefixSums(used, n, n);
    assert used[..|used|] == used;
  }

  lemma FundsPrefix(points: map<Key, TxPoint>, code: Txid, utxos: seq<TxPoint>, n: nat)
    requires Funds(points, code, utxos) && n <= |utxos|
    ensures Funds(points, code, utxos[..n])
  {
    PrefixSums(utxos, n, |utxos|);
    assert utxos[..|utxos|] == utxos;
  }

  lemma {:induction false} RequestedTotal(amounts: seq<AddrAmount>)
    requires AmountsOk(amounts)
    ensures PaymentsTotal(Requested(amounts)) == AmountsTotal(amounts) >= 0
    decreases |amounts|
  {
    if amounts != [] {
      var n := |amounts| - 1;
      RequestedTotal(amounts[..n]);
      assert Requested(amounts) == Requested(amounts[..n]) + [Payment(amounts[n].addr.address, amounts[n].amount)];
      PaymentsNext(Requested(amounts[..n]), Payment(amounts[n].addr.address, amounts[n].amount));
    }
  }

  lemma {:induction false} PaymentsNext(payments: seq<Payment>, p: Payment)
    ensures PaymentsTotal(payments + [p]) == PaymentsTotal(payments) + p.value
  {
    if payments != [] {
      assert (payments + [p])[1..] == payments[1..] + [p];
      PaymentsNext(payments[1..], p);
    } else {
      assert (payments + [p])[1..] == [];
    }
  }

  lemma PaymentsTotalIs(request: Request, left: int)
    requires WellFormed(request) && left >= 0
    ensures PaymentsTotal(Payments(request, left)) == AmountsTotal(request.amounts) + left
    ensures AmountsTotal(request.amounts) >= 0
  {
    RequestedTotal(request.amounts);
    var r := Requested(request.amounts);
    if left == 0 {
      assert r + [] == r;
    } else {
      PaymentsNext(r, Payment(request.change.address, left));
    }
  }

  predicate AmountsInt64(amounts: seq<AddrAmount>) {
    forall a | a in amounts :: a.amount <= MAX_INT64
  }

  /**
   * What a request must satisfy, whatever the user holds: a total that fits, is not zero by accident, and payable
   * addresses.
   */
  predicate RequestOk(request: Request)
    requires WellFormed(request)
  {
    && Total(request) <= MAX_INT64
    && (Total(request) > 0 || request.amounts == [])
    && (forall a | a in request.amounts :: IsPayable(a.addr.address))
  }

  /** The exact condition: the change address matters only when there is change. */
  predicate Deliverable(request: Request, left: int)
    requires WellFormed(request)
  {
    RequestOk(request) && (left > 0 ==> IsPayable(request.change.address))
  }

  lemma PayableAddresses(request: Request, left: int)
    requires WellFormed(request) && left >= 0
    ensures AllPayable(Payments(request, left)) <==>
            (forall a | a in request.amounts :: IsPayable(a.addr.address))
              && (left > 0 ==> IsPayable(request.change.address))
  {
    var payments, n := Payments(request, left), |request.amounts|;
    assert forall i | 0 <= i < n :: payments[i] == Payment(request.amounts[i].addr.address, request.amounts[i].amount);
    if AllPayable(payments) {
      forall a | a in request.amounts ensures IsPayable(a.addr.address) {
        var i :| 0 <= i < n && request.amounts[i] == a;
        assert payments[i] in payments;
      }
      if left > 0 {
        assert payments[n] in payments;
      }
    } else {
      var p :| p in payments && !IsPayable(p.to);
      var i :| 0 <= i < |payments| && payments[i] == p;
      if i < n {
        assert request.amounts[i] in request.amounts;
      }
    }
  }

  lemma DeliverableDelivers(points: map<Key, TxPoint>, code: Txid, utxos: seq<TxPoint>, request: Request,
    inv: TxInventory, txid: Txid)
    requires Funds(points, code, utxos) && WellFormed(request) && Left64(utxos, request) >= 0
    requires var n, left := PickFrom(utxos, Target64(request), 0), Left64(utxos, request);
             ReadAs(inv, utxos[..n], txid, code, ReadBack(Payments(request, left))) && Deliverable(request, left)
    ensures Delivers(inv, code, Payments(request, Left64(utxos, request)), request.burn)
  {
    hide PickFrom;
    var n, left := PickFrom(utxos, Target64(request), 0), Left64(utxos, request);
    var payments := Payments(request, left);
    PaymentsTotalIs(request, left);
    SelectionCovers(points, code, utxos, request);
    ReadBackIsMeant(payments);
    PayableAddresses(request, left);
    PayloadSum(inv.vouts);
    if utxos[..n] == [] {
      assert SumValues(utxos[..n]) == 0 && Total(request) == 0;
    }
  }

  lemma DeliversDeliverable(points: map<Key, TxPoint>, code: Txid, utxos: seq<TxPoint>, request: Request,
    inv: TxInventory, txid: Txid)
    requires Funds(points, code, utxos) && WellFormed(request) && Left64(utxos, request) >= 0 && txid != code
    requires var n, left := PickFrom(utxos, Target64(request), 0), Left64(utxos, request);
             ReadAs(inv, utxos[..n], txid, code, ReadBack(Payments(request, left)))
    requires Delivers(inv, code, Payments(request, Left64(utxos, request)), request.burn)
    ensures Deliverable(request, Left64(utxos, request))
  {
    var n, left := PickFrom(utxos, Target64(request), 0), Left64(utxos, request);
    var payments := Payments(request, left);
    PaymentsTotalIs(request, left);
    FundsPrefix(points, code, utxos, n);
    FundsSum(points, code, utxos[..n]);
    PayloadSum(inv.vouts);
    assert |payments| == |inv.vouts|;
    ReadBackIsMeant(payments);
    PayableAddresses(request, left);
    assert SumValues(utxos[..n]) == Total(request) + left;
    if Total(request) == 0 && request.amounts != [] {
      SelectionCovers(points, code, utxos, request);
    }
  }

  /**
   * The builder meets the interpreter: any finished form of a built transaction parses on the same
   * ledger, into exactly the requested outputs and the change, at exactly the addresses asked, under the
   * same badge, destroying exactly the burn, if and only if the exact total fits int64, it is positive
   * (or nothing is paid out), and every address paid (the change address only if there is change) is a
   * P2PKH address of 20 bytes.
   */
  lemma BuilderMeetsInterpreter(c: Chain, l: Ledger, addrs: set<Addr>, code: Txid, rows: seq<TxPoint>, request: Request,
    tx: MsgTx, ts: int)
    requires LedgerOk(c, l) && NoDoubleSpend(c) && IsQuery(rows, l.points, UnmarkedRows(l.points, addrs, code))
    requires 0 <= request.burn <= MAX_INT64 && AmountsInt64(request.amounts)
    requires Build(UtxosIn(rows), request).Built? && Finishes(tx, Build(UtxosIn(rows), request).tx) && tx.txid != code
    ensures WellFormed(request) && Left64(UtxosIn(rows), request) >= 0 && Parse(l, tx, ts).Some?
    ensures var left := Left64(UtxosIn(rows), request);
            Delivers(Parse(l, tx, ts).value, code, Payments(request, left), request.burn) <==>
              Deliverable(request, left)
  {
    hide ParseBadgeVoutScript, CreateBadgeLockScript, IsQuery, UtxosIn, Parse, PickFrom, Claim64, Gathered64;
    var utxos := UtxosIn(rows);
    UserFunds(c, l, addrs, code, rows);
    var n, left := PickFrom(utxos, Target64(request), 0), Left64(utxos, request);
    FundsPrefix(l.points, code, utxos, n);
    ParseFinished(l, tx, ts, code, utxos[..n]);
    var payments := Payments(request, left);
    PaymentsFit(request, left);
    OutputsReadBack(payments, 0);
    assert payments[0..] == payments;
    var inv := Parse(l, tx, ts).value;
    if Deliverable(request, left) {
      DeliverableDelivers(l.points, code, utxos, request, inv, tx.txid);
    }
    if Delivers(inv, code, payments, request.burn) {
      DeliversDeliverable(l.points, code, utxos, request, inv, tx.txid);
    }
  }

  /**
   * The request alone decides for the wallet's caller: payable addresses throughout are delivered whatever rows are
   * used.
   */
  lemma PayableIsDelivered(c: Chain, l: Ledger, addrs: set<Addr>, code: Txid, rows: seq<TxPoint>, request: Request,
    tx: MsgTx, ts: int)
    requires LedgerOk(c, l) && NoDoubleSpend(c) && IsQuery(rows, l.points, UnmarkedRows(l.points, addrs, code))
    requires WellFormed(request) && RequestOk(request) && IsPayable(request.change.address)
    requires Build(UtxosIn(rows), request).Built? && Finishes(tx, Build(UtxosIn(rows), request).tx) && tx.txid != code
    ensures Left64(UtxosIn(rows), request) >= 0 && Parse(l, tx, ts).Some?
    ensures Delivers(Parse(l, tx, ts).value, code, Payments(request, Left64(UtxosIn(rows), request)), request.burn)
  {
    hide ParseBadgeVoutScript, CreateBadgeLockScript, IsQuery, UtxosIn, Parse, PickFrom, Claim64, Gathered64, Delivers;
    AmountsBelowTotal(request.amounts);
    BuilderMeetsInterpreter(c, l, addrs, code, rows, request, tx, ts);
  }

  lemma {:induction false} AmountsBelowTotal(amounts: seq<AddrAmount>)
    requires AmountsOk(amounts)
    ensures 0 <= AmountsTotal(amounts) && forall a | a in amounts :: a.amount <= AmountsTotal(amounts)
  {
    if amounts != [] {
      AmountsBelowTotal(amounts[..|amounts| - 1]);
      assert amounts == amounts[..|amounts| - 1] + [amounts[|amounts| - 1]];
    }
  }

  lemma PaymentsFit(request: Request, left: int)
    requires WellFormed(request) && 0 <= left <= MAX_INT64 && AmountsInt64(request.amounts)
    ensures forall p | p in Payments(request, left) :: 0 <= p.value <= MAX_INT64
  {
    forall p | p in Requested(request.amounts) ensures 0 <= p.value <= MAX_INT64 {
      var i :| 0 <= i < |request.amounts| && Requested(request.amounts)[i] == p;
      assert request.amounts[i] in request.amounts;
    }
  }
}
