/** SendBadgeToAddress: coin selection and transaction building, checked against the interpreter. */
module Wallet {
  import opened Int64
  import opened Script
  import opened Model
  import opened Views

  const BADGE_DUST_LIMIT := 888

  /** An address string of the request: it decodes to an address of some kind or it does not. */
  datatype AddrText = Undecodable | Decoded(address: Addr)

  /** An amount and the full address it is meant for. */
  datatype Payment = Payment(to: Addr, value: int)

  datatype AddrAmount = AddrAmount(addr: AddrText, amount: int)

  datatype Request = Request(change: AddrText, amounts: seq<AddrAmount>, burn: int)

  /** A transaction still without signatures: outpoints to spend, outputs to create. */
  datatype UnfinishedTx = UnfinishedTx(ins: seq<OutPoint>, outs: seq<TxOut>)

  datatype BuildResult = BadAddress | BadAmount | NotEnoughBadge | Built(tx: UnfinishedTx, usedVins: seq<TxPoint>)

  // ----- the builder's steps

  predicate AmountsOk(amounts: seq<AddrAmount>) {
    forall a | a in amounts :: a.addr.Decoded? && a.amount >= 0
  }

  /** The first error among the requested outputs, if any. */
  function AmountError(amounts: seq<AddrAmount>): (r: Option<BuildResult>)
    ensures r.None? <==> AmountsOk(amounts)
    ensures r.Some? ==> r.value.BadAddress? || r.value.BadAmount?
  {
    if amounts == [] then None
    else if amounts[0].addr.Undecodable? then Some(BadAddress)
    else if amounts[0].amount < 0 then Some(BadAmount)
    else
      assert amounts == [amounts[0]] + amounts[1..];
      AmountError(amounts[1..])
  }

  function Requested(amounts: seq<AddrAmount>): (r: seq<Payment>)
    requires AmountsOk(amounts)
    ensures |r| == |amounts| && forall p | p in r :: p.value >= 0
  {
    seq(|amounts|, i requires 0 <= i < |amounts| => Payment(amounts[i].addr.address, amounts[i].amount))
  }

  function OutputOf(payment: Payment): TxOut
    requires payment.value >= 0
  {
    TxOut(BADGE_DUST_LIMIT, CreateBadgeLockScript(payment.to.hash, payment.value).value)
  }

  function OutputsOf(payments: seq<Payment>): seq<TxOut>
    requires forall p | p in payments :: p.value >= 0
  {
    seq(|payments|, i requires 0 <= i < |payments| => OutputOf(payments[i]))
  }

  /** voutValue after the first `n` amounts, in int64. */
  function Claim64(amounts: seq<AddrAmount>, burn: int, n: nat): int
    requires n <= |amounts|
  {
    if n == 0 then burn else Add64(Claim64(amounts, burn, n - 1), amounts[n - 1].amount)
  }

  /** vinValue after the first `n` outputs, in int64. */
  function Gathered64(utxos: seq<TxPoint>, n: nat): int
    requires n <= |utxos|
  {
    if n == 0 then 0 else Add64(Gathered64(utxos, n - 1), utxos[n - 1].value)
  }

  /** How many outputs the selection loop takes, having taken `n`. */
  function PickFrom(utxos: seq<TxPoint>, target: int, n: nat): (r: nat)
    requires n <= |utxos|
    ensures n <= r <= |utxos|
    ensures r < |utxos| ==> Gathered64(utxos, r) >= target
    ensures forall k | n <= k < r :: Gathered64(utxos, k) < target
    decreases |utxos| - n
  {
    if n < |utxos| && Gathered64(utxos, n) < target then PickFrom(utxos, target, n + 1) else n
  }

  function PrevsOf(utxos: seq<TxPoint>): seq<OutPoint> {
    seq(|utxos|, i requires 0 <= i < |utxos| => OutPoint(utxos[i].txid, utxos[i].index))
  }

  /** The payments of a built transaction: the requested ones, and the change if there is any. */
  function Payments(request: Request, left: int): (r: seq<Payment>)
    requires AmountsOk(request.amounts) && request.change.Decoded? && left >= 0
    ensures forall p | p in r :: p.value >= 0
  {
    Requested(request.amounts) + if left == 0 then [] else [Payment(request.change.address, left)]
  }

  function Target64(request: Request): int {
    Claim64(request.amounts, request.burn, |request.amounts|)
  }

  /** What is left after the selection: gathered minus claimed, in int64. */
  function Left64(utxos: seq<TxPoint>, request: Request): int {
    Sub64(Gathered64(utxos, PickFrom(utxos, Target64(request), 0)), Target64(request))
  }

  /** SendBadgeToAddress over the user's unspent outputs, in the order the query returned them. */
  function Build(utxos: seq<TxPoint>, request: Request): BuildResult {
    if request.change.Undecodable? then BadAddress
    else if AmountError(request.amounts).Some? then AmountError(request.amounts).value
    else if Left64(utxos, request) < 0 then NotEnoughBadge
    else
      var used := utxos[..PickFrom(utxos, Target64(request), 0)];
      Built(UnfinishedTx(PrevsOf(used), OutputsOf(Payments(request, Left64(utxos, request)))), used)
  }

  /** The output loop: one script per requested amount, or the first error. */
  method CreateOutputs(amounts: seq<AddrAmount>, burn: int)
    returns (error: Option<BuildResult>, outs: seq<TxOut>, voutValue: int)
    ensures error == AmountError(amounts)
    ensures error.None? ==> voutValue == Claim64(amounts, burn, |amounts|) && outs == OutputsOf(Requested(amounts))
  {
    hide CreateBadgeLockScript, Add64;
    outs, voutValue := [], burn;
    assert amounts[0..] == amounts;
    for n := 0 to |amounts|
      invariant AmountError(amounts) == AmountError(amounts[n..])
      invariant voutValue == Claim64(amounts, burn, n)
      invariant AmountsOk(amounts[..n]) && outs == OutputsOf(Requested(amounts[..n]))
    {
      assert amounts[n..][1..] == amounts[n + 1..];
      if amounts[n].addr.Undecodable? {
        return Some(BadAddress), outs, voutValue;
      }
      if amounts[n].amount < 0 {
        return Some(BadAmount), outs, voutValue;
      }
      OutputsNext(amounts, n);
      outs := outs + [OutputOf(Payment(amounts[n].addr.address, amounts[n].amount))];
      voutValue := Add64(voutValue, amounts[n].amount);
    }
    assert amounts[..|amounts|] == amounts;
    error := None;
  }

  lemma OutputsNext(amounts: seq<AddrAmount>, n: nat)
    requires n < |amounts| && AmountsOk(amounts[..n]) && amounts[n].addr.Decoded? && amounts[n].amount >= 0
    ensures AmountsOk(amounts[..n + 1])
    ensures OutputsOf(Requested(amounts[..n + 1])) ==
            OutputsOf(Requested(amounts[..n])) + [OutputOf(Payment(amounts[n].addr.address, amounts[n].amount))]
  {
    hide CreateBadgeLockScript;
    assert amounts[..n + 1] == amounts[..n] + [amounts[n]];
    assert Requested(amounts[..n + 1]) == Requested(amounts[..n]) + [Payment(amounts[n].addr.address,
      amounts[n].amount)];
  }

  /** The selection loop: take outputs until the target is covered. */
  method SelectCoins(utxos: seq<TxPoint>, voutValue: int)
    returns (ins: seq<OutPoint>, usedVins: seq<TxPoint>, vinValue: int)
    ensures var n := PickFrom(utxos, voutValue, 0);
            usedVins == utxos[..n] && ins == PrevsOf(utxos[..n]) && vinValue == Gathered64(utxos, n)
  {
    hide Add64;
    var n := 0;
    ins, usedVins, vinValue := [], [], 0;
    while n < |utxos| && vinValue < voutValue
      invariant n <= |utxos| && vinValue == Gathered64(utxos, n)
      invariant PickFrom(utxos, voutValue, 0) == PickFrom(utxos, voutValue, n)
      invariant usedVins == utxos[..n] && ins == PrevsOf(utxos[..n])
    {
      ins := ins + [OutPoint(utxos[n].txid, utxos[n].index)];
      usedVins := usedVins + [utxos[n]];
      vinValue := Add64(vinValue, utxos[n].value);
      n := n + 1;
    }
  }

  lemma DustOutputs(payments: seq<Payment>)
    requires forall p | p in payments :: p.value >= 0
    ensures forall out | out in OutputsOf(payments) :: out.satoshis == 888
  {
    hide CreateBadgeLockScript;
  }

  /** Unspent outputs found for a user lie at addresses whose rows name that user. */
  lemma UtxosAreUsers(points: map<Key, TxPoint>, addrInfos: map<Addr, AddrInfo>, appid: string, userid: int,
    userIndex: int, badgeCode: Txid, rows: seq<TxPoint>)
    requires IsQuery(rows, points, UnmarkedRows(points, UserAddrs(addrInfos, appid, userid, userIndex), badgeCode))
    ensures forall p | p in UtxosIn(rows) ::
              && p.addr in addrInfos && addrInfos[p.addr].appid == appid
              && addrInfos[p.addr].userid == userid && addrInfos[p.addr].userIndex == userIndex
  {
    UtxoMembers(rows, |rows|);
    hide UtxosUpTo, IsUtxo, UserAddrs;
    forall p | p in UtxosIn(rows)
      ensures && p.addr in addrInfos && addrInfos[p.addr].appid == appid
              && addrInfos[p.addr].userid == userid && addrInfos[p.addr].userIndex == userIndex
    {
      assert p in rows && KeyOf(p) in points && points[KeyOf(p)] == p;
      OneUser(addrInfos, p.addr, appid, userid, userIndex);
    }
  }

  /** SendBadgeToAddress as it runs, over whatever order of rows the database returned. */
  method SendBadgeToAddress(points: map<Key, TxPoint>, addrInfos: map<Addr, AddrInfo>, appid: string, userid: int,
    userIndex: int, badgeCode: Txid, request: Request)
    returns (r: BuildResult)
    requires forall k | k in points :: KeyOf(points[k]) == k
    ensures exists rows | IsQuery(rows, points,
            UnmarkedRows(points, UserAddrs(addrInfos, appid, userid, userIndex), badgeCode)) ::
              r == Build(UtxosIn(rows), request)
    ensures r.Built? ==> forall out | out in r.tx.outs :: out.satoshis == 888
    ensures r.Built? ==> forall p | p in r.usedVins ::
              && p.addr in addrInfos && addrInfos[p.addr].appid == appid
              && addrInfos[p.addr].userid == userid && addrInfos[p.addr].userIndex == userIndex
  {
    hide CreateBadgeLockScript, IsQuery, UtxosIn, Claim64, Gathered64, PickFrom;
    var rows := QueryRows(points, UserAddrs(addrInfos, appid, userid, userIndex), badgeCode, true);
    var utxos := CalculateUtxos(rows);
    if request.change.Undecodable? {
      return BadAddress;
    }
    var error, outs, voutValue := CreateOutputs(request.amounts, request.burn);
    if error.Some? {
      return error.value;
    }
    var ins, usedVins, vinValue := SelectCoins(utxos, voutValue);
    var change := Sub64(vinValue, voutValue);
    if change < 0 {
      return NotEnoughBadge;
    }
    if change != 0 {
      outs := outs + [OutputOf(Payment(request.change.address, change))];
    }
    assert outs == OutputsOf(Payments(request, change));
    DustOutputs(Payments(request, change));
    UtxosAreUsers(points, addrInfos, appid, userid, userIndex, badgeCode, rows);
    r := Built(UnfinishedTx(ins, outs), usedVins);
  }
}
