/** Requests the wallet builds and the ledger does not honour: each clause of Delivery.Deliverable is needed. */
module Undelivered {
  import opened Int64
  import opened Script
  import opened Model
  import opened Chains
  import opened Store
  import opened Sums
  import opened Workers
  import opened Conservation
  import opened Views
  import opened Wallet
  import opened Delivery

  /** On this ledger the request is built, and the finished transaction does not deliver it. */
  ghost predicate IsUndelivered(l: Ledger, code: Txid, rows: seq<TxPoint>, request: Request, tx: MsgTx, ts: int) {
    var utxos := UtxosIn(rows);
    && WellFormed(request) && Build(utxos, request).Built? && Left64(utxos, request) >= 0
    && Finishes(tx, Build(utxos, request).tx) && Parse(l, tx, ts).Some?
    && !Delivers(Parse(l, tx, ts).value, code, Payments(request, Left64(utxos, request)), request.burn)
  }

  // ----- some finished transaction

  /** Inputs that unlock their outpoints in any way and push the flag last. */
  function Flagged(prevs: seq<OutPoint>, unlock: OutPoint -> seq<byte>): seq<TxIn> {
    seq(|prevs|, i requires 0 <= i < |prevs| => TxIn(prevs[i], unlock(prevs[i]) + BADGE_FLAG))
  }

  lemma {:induction false} FlaggedPrevs(prevs: seq<OutPoint>, unlock: OutPoint -> seq<byte>, n: nat)
    requires n <= |prevs|
    ensures BadgePrevs(Flagged(prevs, unlock), n) == prevs[..n]
  {
    hide IsBadgeVin;
    if n > 0 {
      FlaggedPrevs(prevs, unlock, n - 1);
      BadgeVinEndsInFlag(Flagged(prevs, unlock)[n - 1]);
      assert prevs[..n] == prevs[..n - 1] + [prevs[n - 1]];
    }
  }

  /** Unlocking and flagging the drafted inputs, in whatever way, and adding nothing finishes a draft. */
  lemma SomeFinish(draft: UnfinishedTx, txid: Txid, unlock: OutPoint -> seq<byte>) returns (tx: MsgTx)
    ensures Finishes(tx, draft) && tx.txid == txid && tx.ins == Flagged(draft.ins, unlock)
  {
    tx := MsgTx(txid, Flagged(draft.ins, unlock), draft.outs);
    FlaggedPrevs(draft.ins, unlock, |draft.ins|);
    assert draft.ins[..|draft.ins|] == draft.ins;
  }

  lemma BuiltIsUndelivered(c: Chain, l: Ledger, addrs: set<Addr>, code: Txid, rows: seq<TxPoint>, request: Request,
    ts: int, unlock: OutPoint -> seq<byte>) returns (tx: MsgTx)
    requires LedgerOk(c, l) && NoDoubleSpend(c) && IsQuery(rows, l.points, UnmarkedRows(l.points, addrs, code))
    requires 0 <= request.burn <= MAX_INT64 && AmountsInt64(request.amounts) && Build(UtxosIn(rows), request).Built?
    requires WellFormed(request) && !Deliverable(request, Left64(UtxosIn(rows), request))
    ensures tx.txid != code && IsUndelivered(l, code, rows, request, tx, ts)
  {
    hide IsQuery, UtxosIn, Build, Parse, Delivers, LedgerOk, Deliverable, Finishes;
    tx := SomeFinish(Build(UtxosIn(rows), request).tx, code + "'", unlock);
    assert |tx.txid| != |code|;
    BuilderMeetsInterpreter(c, l, addrs, code, rows, request, tx, ts);
  }

  // ----- the total passes 2^63

  function OverflowRequest(a: Addr): Request {
    Request(Decoded(a), [AddrAmount(Decoded(a), MAX_INT64), AddrAmount(Decoded(a), 2)], 0)
  }

  lemma OverflowIsBuilt(utxos: seq<TxPoint>, a: Addr)
    ensures var request := OverflowRequest(a);
            WellFormed(request) && !RequestOk(request) && Build(utxos, request).Built?
  {
    hide CreateBadgeLockScript;
    var request := OverflowRequest(a);
    var amounts := request.amounts;
    assert Claim64(amounts, 0, 1) == MAX_INT64 && Claim64(amounts, 0, 2) == MIN_INT64 + 1;
    assert amounts[..1] == [amounts[0]] && amounts[..1][..0] == [];
    assert AmountsTotal(amounts) == AmountsTotal(amounts[..1]) + 2 && AmountsTotal(amounts[..1]) == MAX_INT64;
    assert Left64(utxos, request) == MAX_INT64;
  }

  /** On every ledger, for every user, two amounts past 2^63 are built for nothing and not delivered. */
  lemma OverflowIsNotDelivered(c: Chain, l: Ledger, addrs: set<Addr>, code: Txid, rows: seq<TxPoint>, a: Addr, ts: int,
    unlock: OutPoint -> seq<byte>)
    returns (tx: MsgTx)
    requires LedgerOk(c, l) && NoDoubleSpend(c) && IsQuery(rows, l.points, UnmarkedRows(l.points, addrs, code))
    ensures tx.txid != code && IsUndelivered(l, code, rows, OverflowRequest(a), tx, ts)
  {
    hide IsQuery, UtxosIn, Build, LedgerOk, IsUndelivered;
    OverflowIsBuilt(UtxosIn(rows), a);
    tx := BuiltIsUndelivered(c, l, addrs, code, rows, OverflowRequest(a), ts, unlock);
  }

  // ----- the total is zero

  function ZeroRequest(a: Addr): Request {
    Request(Decoded(a), [AddrAmount(Decoded(a), 0)], 0)
  }

  lemma ZeroIsBuilt(utxos: seq<TxPoint>, a: Addr)
    ensures var request := ZeroRequest(a);
            WellFormed(request) && !RequestOk(request) && Build(utxos, request).Built?
  {
    hide CreateBadgeLockScript;
    var request := ZeroRequest(a);
    assert Claim64(request.amounts, 0, 1) == 0;
    assert request.amounts[..0] == [] && AmountsTotal(request.amounts) == 0;
  }

  /** A zero total spends nothing, so the interpreter reads an issuance of a new badge. */
  lemma ZeroIsNotDelivered(c: Chain, l: Ledger, addrs: set<Addr>, code: Txid, rows: seq<TxPoint>, a: Addr, ts: int,
    unlock: OutPoint -> seq<byte>)
    returns (tx: MsgTx)
    requires LedgerOk(c, l) && NoDoubleSpend(c) && IsQuery(rows, l.points, UnmarkedRows(l.points, addrs, code))
    ensures tx.txid != code && IsUndelivered(l, code, rows, ZeroRequest(a), tx, ts)
  {
    hide IsQuery, UtxosIn, Build, LedgerOk, IsUndelivered;
    ZeroIsBuilt(UtxosIn(rows), a);
    tx := BuiltIsUndelivered(c, l, addrs, code, rows, ZeroRequest(a), ts, unlock);
  }

  // ----- the address is not P2PKH

  function ScriptHashRequest(hash: seq<byte>, v: int, change: Addr): Request {
    Request(Decoded(change), [AddrAmount(Decoded(Addr(ScriptHash, hash)), v)], 0)
  }

  /**
   * On every ledger, for every user who has the amount, paying it to a P2SH address is built, and the row
   * goes to a P2PKH address the request never named.
   */
  lemma ScriptHashIsNotDelivered(c: Chain, l: Ledger, addrs: set<Addr>, code: Txid, rows: seq<TxPoint>, hash: seq<byte>,
    v: int, change: Addr, ts: int, unlock: OutPoint -> seq<byte>) returns (tx: MsgTx)
    requires LedgerOk(c, l) && NoDoubleSpend(c) && IsQuery(rows, l.points, UnmarkedRows(l.points, addrs, code))
    requires 0 < v <= MAX_INT64 && v <= Balance(l.points, addrs, code)
    ensures tx.txid != code && IsUndelivered(l, code, rows, ScriptHashRequest(hash, v, change), tx, ts)
  {
    hide IsQuery, UtxosIn, Build, LedgerOk, IsUndelivered, Balance;
    var request := ScriptHashRequest(hash, v, change);
    assert request.amounts[..0] == [] && AmountsTotal(request.amounts) == v;
    assert !IsPayable(request.amounts[0].addr.address) && request.amounts[0] in request.amounts;
    CoinSelectionIsComplete(c, l, addrs, code, rows, request);
    tx := BuiltIsUndelivered(c, l, addrs, code, rows, request, ts, unlock);
  }

  // ----- the change address is not P2PKH

  /**
   * On every ledger, for every user whose outputs leave change, a change address that is not P2PKH loses the change.
   */
  lemma UnpayableChangeIsNotDelivered(c: Chain, l: Ledger, addrs: set<Addr>, code: Txid, rows: seq<TxPoint>,
    request: Request, ts: int, unlock: OutPoint -> seq<byte>) returns (tx: MsgTx)
    requires LedgerOk(c, l) && NoDoubleSpend(c) && IsQuery(rows, l.points, UnmarkedRows(l.points, addrs, code))
    requires WellFormed(request) && AmountsInt64(request.amounts) && Build(UtxosIn(rows), request).Built?
    requires Left64(UtxosIn(rows), request) > 0 && !IsPayable(request.change.address)
    ensures tx.txid != code && IsUndelivered(l, code, rows, request, tx, ts)
  {
    hide IsQuery, UtxosIn, Build, LedgerOk, IsUndelivered, RequestOk;
    tx := BuiltIsUndelivered(c, l, addrs, code, rows, request, ts, unlock);
  }

  // ----- there are such users

  const HASH: seq<byte> := seq(20, i => 0)

  /** The chain of one issuance, and the ledger its processing leaves. */
  lemma IssuedLedger(a: MsgTx, row: TxPoint) returns (c: Chain, l: Ledger)
    requires a.ins == [] && |a.outs| == 1 && ParseBadgeVoutScript(a.outs[0].script).Some?
    requires 0 <= ParseBadgeVoutScript(a.outs[0].script).value.value <= MAX_INT64
    requires row == NewVout(a, 0, 0, a.txid, ParseBadgeVoutScript(a.outs[0].script).value)
    ensures LedgerOk(c, l) && NoDoubleSpend(c) && l.points == map[KeyOf(row) := row]
  {
    hide ParseBadgeVoutScript, Parse;
    c := RawChain(map[a.txid := a], map[a.txid := 0]);
    var l0 := Ledger(map[], map[a.txid := TxInfo(a, 0, New)]);
    IssuanceParses(l0, a, row);
    l := Process(l0, a, 0);
    RecordedOk(c, a);
    hide LedgerOk;
    ProcessKeeps(c, l0, a, 0);
    OneInsert(row);
  }

  lemma RecordedOk(c: Chain, a: MsgTx)
    requires ChainTx(c, a)
    ensures LedgerOk(c, Ledger(map[], map[a.txid := TxInfo(a, 0, New)]))
  {
    hide Points;
  }

  /** After an issuance of 5 to a P2PKH address, its owner's rows. */
  lemma FundedUser() returns (c: Chain, l: Ledger, rows: seq<TxPoint>)
    ensures LedgerOk(c, l) && NoDoubleSpend(c)
    ensures IsQuery(rows, l.points, UnmarkedRows(l.points, {P2pkh(HASH)}, "a"))
            && Balance(l.points, {P2pkh(HASH)}, "a") == 5
    ensures |rows| == 1 && rows[0].kind == Vout && rows[0].value == 5
  {
    hide ParseBadgeVoutScript, CreateBadgeLockScript, LedgerOk, NoDoubleSpend, IsQuery, Balance, UnmarkedRows;
    OutputReadsBack(Payment(P2pkh(HASH), 5));
    var a := MsgTx("a", [], [OutputOf(Payment(P2pkh(HASH), 5))]);
    var row := NewVout(a, 0, 0, "a", BadgeVout(HASH, 5));
    c, l := IssuedLedger(a, row);
    rows := [row];
    OneRow(l, row);
  }

  lemma IssuanceParses(l: Ledger, tx: MsgTx, row: TxPoint)
    requires tx.ins == [] && |tx.outs| == 1 && ParseBadgeVoutScript(tx.outs[0].script).Some?
    requires 0 <= ParseBadgeVoutScript(tx.outs[0].script).value.value <= MAX_INT64
    requires row == NewVout(tx, 0, 0, tx.txid, ParseBadgeVoutScript(tx.outs[0].script).value)
    ensures Parse(l, tx, 0) == Some(TxInventory([], [row]))
  {
    hide ParseBadgeVoutScript;
    assert TakeVouts(tx, 0, tx.txid, MAX_INT64 - row.value, 1) == Some([]);
    assert [row] + [] == [row];
  }

  lemma OneInsert(row: TxPoint)
    ensures AddPoints(map[], Rows(TxInventory([], [row]))) == map[KeyOf(row) := row]
  {
    assert Rows(TxInventory([], [row])) == [row] && [row][1..] == [];
    assert AddPoints(AddPoint(map[], row), []) == map[KeyOf(row) := row];
  }

  lemma OneRow(l: Ledger, row: TxPoint)
    requires l.points == map[KeyOf(row) := row] && row.kind == Vout && row.state == MayBeUnspent
    ensures IsQuery([row], l.points, UnmarkedRows(l.points, {row.addr}, row.badgeCode))
    ensures Balance(l.points, {row.addr}, row.badgeCode) == row.value
  {
    var k := KeyOf(row);
    assert UnmarkedRows(l.points, {row.addr}, row.badgeCode) == {k};
    assert !IsSpent(l.points, k);
    assert AddrRows(l.points, {row.addr}, row.badgeCode) * Unspent(l.points) == {k};
    SumPick(l.points, {k}, k);
    assert {k} - {k} == {};
  }

  /** So a P2SH request is built and not delivered on a ledger that a run of the node produces. */
  lemma ScriptHashExample(unlock: OutPoint -> seq<byte>) returns (c: Chain, l: Ledger, rows: seq<TxPoint>, tx: MsgTx)
    ensures LedgerOk(c, l) && NoDoubleSpend(c)
    ensures IsQuery(rows, l.points, UnmarkedRows(l.points, {P2pkh(HASH)}, "a"))
    ensures IsUndelivered(l, "a", rows, ScriptHashRequest(HASH, 5, P2pkh(HASH)), tx, 0)
  {
    hide LedgerOk, NoDoubleSpend, IsQuery, Balance, UnmarkedRows, IsUndelivered;
    c, l, rows := FundedUser();
    tx := ScriptHashIsNotDelivered(c, l, {P2pkh(HASH)}, "a", rows, HASH, 5, P2pkh(HASH), 0, unlock);
  }

  /** The user of that ledger pays 3 of the 5, payably, with a P2SH change address. */
  function ChangeRequest(hash: seq<byte>): Request {
    Request(Decoded(Addr(ScriptHash, hash)), [AddrAmount(Decoded(P2pkh(hash)), 3)], 0)
  }

  lemma OneUtxo(rows: seq<TxPoint>)
    requires |rows| == 1 && rows[0].kind == Vout
    ensures UtxosIn(rows) == rows
  {
    assert UtxosUpTo(rows, 0) == [];
    assert IsUtxo(rows, rows[0]);
  }

  lemma ChangeIsLeft(rows: seq<TxPoint>)
    requires |rows| == 1 && rows[0].kind == Vout && rows[0].value == 5
    ensures var request := ChangeRequest(HASH);
            WellFormed(request) && Build(UtxosIn(rows), request).Built? && Left64(UtxosIn(rows), request) == 2
  {
    hide CreateBadgeLockScript;
    OneUtxo(rows);
    hide UtxosIn;
    var request := ChangeRequest(HASH);
    assert Claim64(request.amounts, 0, 1) == 3;
    assert Gathered64(rows, 0) == 0 && Gathered64(rows, 1) == 5;
    assert PickFrom(rows, 3, 1) == 1 && PickFrom(rows, 3, 0) == 1;
  }

  lemma ChangeExample(unlock: OutPoint -> seq<byte>) returns (c: Chain, l: Ledger, rows: seq<TxPoint>, tx: MsgTx)
    ensures LedgerOk(c, l) && NoDoubleSpend(c) && RequestOk(ChangeRequest(HASH))
    ensures IsQuery(rows, l.points, UnmarkedRows(l.points, {P2pkh(HASH)}, "a"))
    ensures IsUndelivered(l, "a", rows, ChangeRequest(HASH), tx, 0)
  {
    hide LedgerOk, NoDoubleSpend, IsQuery, Balance, UnmarkedRows, IsUndelivered, Build, Left64, UtxosIn;
    c, l, rows := FundedUser();
    ChangeIsLeft(rows);
    var request := ChangeRequest(HASH);
    assert request.amounts[..0] == [] && AmountsTotal(request.amounts) == 3;
    tx := UnpayableChangeIsNotDelivered(c, l, {P2pkh(HASH)}, "a", rows, request, 0, unlock);
  }
}
