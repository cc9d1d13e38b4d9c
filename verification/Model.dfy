/** Transactions, ledger rows, and the interpreter's pure steps. */
module Model {
  import opened Int64
  import opened Script

  type Txid = string

  /** The kinds of address a text can decode to. */
  datatype AddrKind = PubKeyHash | ScriptHash | PubKey | WitnessPubKeyHash | WitnessScriptHash

  /** A decoded address; `hash` is its ScriptAddress, which alone goes into a locking script. */
  datatype Addr = Addr(kind: AddrKind, hash: seq<byte>)

  const MAX_CREATE_BADGE_VALUE := MAX_INT64

  /** The bytes of "badge", the last push of a signature script that unlocks a badge output. */
  const BADGE_FLAG: seq<byte> := [0x62, 0x61, 0x64, 0x67, 0x65]

  datatype OutPoint = OutPoint(txid: Txid, index: nat)
  datatype TxIn = TxIn(prev: OutPoint, sig: seq<byte>)
  datatype TxOut = TxOut(satoshis: int, script: seq<byte>)
  datatype MsgTx = MsgTx(txid: Txid, ins: seq<TxIn>, outs: seq<TxOut>)

  datatype Kind = Vin | Vout
  datatype Mark = MayBeUnspent | PrettySureSpent

  /** The unique index of the tx_point table. */
  datatype Key = Key(txid: Txid, index: int, kind: Kind)

  datatype TxPoint = TxPoint(
    addr: Addr, txid: Txid, index: nat, kind: Kind, value: int,
    preTxid: Txid, preIndex: int, badgeCode: Txid, timestamp: int, state: Mark)

  datatype TxInventory = TxInventory(vins: seq<TxPoint>, vouts: seq<TxPoint>)

  datatype TxState = New | Open | Closed

  /** The index -1 row of a transaction together with the transaction its segments rebuild. */
  datatype TxInfo = TxInfo(msgTx: MsgTx, height: int, state: TxState)

  type Infos = map<Txid, TxInfo>

  datatype Ledger = Ledger(points: map<Key, TxPoint>, infos: Infos)

  function KeyOf(p: TxPoint): Key {
    Key(p.txid, p.index, p.kind)
  }

  /** A row without the two fields that are not part of its meaning. */
  function Content(p: TxPoint): TxPoint {
    p.(timestamp := 0, state := MayBeUnspent)
  }

  predicate IsBadgeVin(vin: TxIn) {
    |vin.sig| >= |BADGE_FLAG| && vin.sig[|vin.sig| - |BADGE_FLAG|..] == BADGE_FLAG
  }

  /** A badge input is one whose signature script ends in the text "badge", whatever unlocks it before that. */
  lemma BadgeVinEndsInFlag(vin: TxIn)
    ensures IsBadgeVin(vin) <==> exists unlock :: vin.sig == unlock + BADGE_FLAG
    ensures |BADGE_FLAG| == |"badge"| && forall i | 0 <= i < |BADGE_FLAG| :: BADGE_FLAG[i] == "badge"[i] as int
  {
    if IsBadgeVin(vin) {
      var n := |vin.sig| - |BADGE_FLAG|;
      assert vin.sig == vin.sig[..n] + vin.sig[n..];
    }
    if exists unlock :: vin.sig == unlock + BADGE_FLAG {
      var unlock :| vin.sig == unlock + BADGE_FLAG;
      assert vin.sig[|unlock|..] == BADGE_FLAG;
    }
  }

  // ----- GetTxPoint

  /** GetTxPoint's outcomes: a row, the "unknow utxo" error, or the "illegal vin" error. */
  datatype Lookup = Found(point: TxPoint) | UnknownUtxo | IllegalVin

  function VoutKey(op: OutPoint): Key {
    Key(op.txid, op.index, Vout)
  }

  predicate ClosedTx(infos: Infos, t: Txid) {
    t in infos && infos[t].state == Closed
  }

  predicate IsClosed(l: Ledger, txid: Txid) {
    ClosedTx(l.infos, txid)
  }

  /** GetTxPoint when nothing interleaves with its three reads. */
  function LookupIn(l: Ledger, op: OutPoint): Lookup {
    if VoutKey(op) in l.points then Found(l.points[VoutKey(op)])
    else if !IsClosed(l, op.txid) then UnknownUtxo
    else IllegalVin
  }

  // ----- ParseMsgTx

  /** What the vin loop of ParseMsgTx has gathered. */
  datatype VinScan = VinScan(vins: seq<TxPoint>, illegal: bool)

  const NO_VINS := VinScan([], false)

  function NewVin(tx: MsgTx, i: nat, ts: int, p: TxPoint): TxPoint {
    TxPoint(p.addr, tx.txid, i, Vin, Neg64(p.value), p.txid, p.index, p.badgeCode, ts, MayBeUnspent)
  }

  /** NewAddressPubKeyHash: whatever kind of address was paid, the parser makes a P2PKH address of the bytes. */
  function P2pkh(hash: seq<byte>): Addr {
    Addr(PubKeyHash, hash)
  }

  function NewVout(tx: MsgTx, i: nat, ts: int, code: Txid, out: BadgeVout): TxPoint {
    TxPoint(P2pkh(out.address), tx.txid, i, Vout, out.value, "", -1, code, ts, MayBeUnspent)
  }

  function ScanVin(tx: MsgTx, i: nat, ts: int, scan: VinScan, found: Lookup): VinScan
    requires !found.UnknownUtxo?
  {
    match found
    case Found(p) => scan.(vins := scan.vins + [NewVin(tx, i, ts, p)])
    case IllegalVin => scan.(illegal := true)
  }

  /** The vin loop over the first `n` inputs; `None` once an outpoint is unknown. */
  function ScanVins(l: Ledger, tx: MsgTx, ts: int, n: nat): Option<VinScan>
    requires n <= |tx.ins|
  {
    if n == 0 then Some(NO_VINS) else
    var before := ScanVins(l, tx, ts, n - 1);
    if before.None? || !IsBadgeVin(tx.ins[n - 1]) then before else
    var found := LookupIn(l, tx.ins[n - 1].prev);
    if found.UnknownUtxo? then None else Some(ScanVin(tx, n - 1, ts, before.value, found))
  }

  /** The int64 total of what `vins` consume. */
  function Consumed(vins: seq<TxPoint>): int {
    if vins == [] then 0
    else Sub64(Consumed(vins[..|vins| - 1]), vins[|vins| - 1].value)
  }

  predicate MixesBadges(vins: seq<TxPoint>) {
    exists i, j | 0 <= i < j < |vins| :: vins[i].badgeCode != vins[j].badgeCode
  }

  function BadgeCodeOf(tx: MsgTx, vins: seq<TxPoint>): Txid {
    if vins == [] then tx.txid else vins[0].badgeCode
  }

  function BudgetOf(vins: seq<TxPoint>): int {
    if vins == [] then MAX_CREATE_BADGE_VALUE else Consumed(vins)
  }

  /** The vout loop from output `j` on; `None` when the outputs claim more than `budget`. */
  function TakeVouts(tx: MsgTx, ts: int, code: Txid, budget: int, j: nat): Option<seq<TxPoint>>
    requires j <= |tx.outs|
    decreases |tx.outs| - j
  {
    if j == |tx.outs| then Some([]) else
    match ParseBadgeVoutScript(tx.outs[j].script)
    case None => TakeVouts(tx, ts, code, budget, j + 1)
    case Some(out) =>
      var left := Sub64(budget, out.value);
      if left < 0 then None else
      match TakeVouts(tx, ts, code, left, j + 1)
      case None => None
      case Some(rest) => Some([NewVout(tx, j, ts, code, out)] + rest)
  }

  /** ParseMsgTx after its vin loop. */
  function FinishParse(tx: MsgTx, ts: int, scan: VinScan): TxInventory {
    if scan.illegal || MixesBadges(scan.vins) then TxInventory(scan.vins, [])
    else
      match TakeVouts(tx, ts, BadgeCodeOf(tx, scan.vins), BudgetOf(scan.vins), 0)
      case None => TxInventory(scan.vins, [])
      case Some(vouts) => TxInventory(scan.vins, vouts)
  }

  function Parse(l: Ledger, tx: MsgTx, ts: int): Option<TxInventory> {
    match ScanVins(l, tx, ts, |tx.ins|)
    case None => None
    case Some(scan) => Some(FinishParse(tx, ts, scan))
  }

  // ----- writes

  /** The rows in the order ParseAndAddTxPoints inserts them: vins first. */
  function Rows(inv: TxInventory): seq<TxPoint> {
    inv.vins + inv.vouts
  }

  /** AddTxPoint; a duplicate key leaves the stored row as it is. */
  function AddPoint(points: map<Key, TxPoint>, p: TxPoint): map<Key, TxPoint> {
    if KeyOf(p) in points then points else points[KeyOf(p) := p]
  }

  function AddPoints(points: map<Key, TxPoint>, ps: seq<TxPoint>): map<Key, TxPoint>
    decreases |ps|
  {
    if ps == [] then points else AddPoints(AddPoint(points, ps[0]), ps[1..])
  }

  /** SetMsgTxState; there is nothing to update without an index -1 row. */
  function SetState(infos: Infos, txid: Txid, state: TxState): Infos {
    if txid in infos then infos[txid := infos[txid].(state := state)] else infos
  }

  /** AddMsgTxInfo's commit row; a duplicate leaves height and state as they are. */
  function AddInfo(infos: Infos, tx: MsgTx, height: int): Infos {
    if tx.txid in infos then infos else infos[tx.txid := TxInfo(tx, height, New)]
  }

  /** One undisturbed ProcessMsgTx. */
  function Process(l: Ledger, tx: MsgTx, ts: int): Ledger {
    match Parse(l, tx, ts)
    case None => Ledger(l.points, SetState(l.infos, tx.txid, Open))
    case Some(inv) => Ledger(AddPoints(l.points, Rows(inv)), SetState(l.infos, tx.txid, Closed))
  }
}
