/** What the interpreter's loops compute, and why one sorted pass over a batch suffices. */
module Batches {
  import opened Int64
  import opened Script
  import opened Model
  import opened Chains
  import opened Store
  import opened Workers
  import opened Sorting

  // ----- the badgeValues map

  /** The int64 total consumed of badge `b` alone. */
  function ConsumedOf(vins: seq<TxPoint>, b: Txid): int {
    if vins == [] then 0 else
    var before := ConsumedOf(vins[..|vins| - 1], b);
    if vins[|vins| - 1].badgeCode == b then Sub64(before, vins[|vins| - 1].value) else before
  }

  ghost function CodesIn(vins: seq<TxPoint>): set<Txid> {
    set v | v in vins :: v.badgeCode
  }

  ghost predicate Tallies(badgeValues: map<Txid, int>, vins: seq<TxPoint>) {
    badgeValues.Keys == CodesIn(vins) && forall b | b in badgeValues :: badgeValues[b] == ConsumedOf(vins, b)
  }

  lemma CodesInNext(vins: seq<TxPoint>, v: TxPoint)
    ensures CodesIn(vins + [v]) == CodesIn(vins) + {v.badgeCode}
  {
    assert forall u | u in vins :: u in vins + [v];
    assert v in vins + [v];
  }

  lemma {:induction false} ConsumedOfAbsent(vins: seq<TxPoint>, b: Txid)
    requires forall v | v in vins :: v.badgeCode != b
    ensures ConsumedOf(vins, b) == 0
  {
    if vins != [] {
      ConsumedOfAbsent(vins[..|vins| - 1], b);
    }
  }

  lemma {:induction false} ConsumedOfAll(vins: seq<TxPoint>, b: Txid)
    requires forall v | v in vins :: v.badgeCode == b
    ensures ConsumedOf(vins, b) == Consumed(vins)
  {
    if vins != [] {
      ConsumedOfAll(vins[..|vins| - 1], b);
    }
  }

  /** Adding one found row keeps the tally. */
  lemma TallyNext(badgeValues: map<Txid, int>, vins: seq<TxPoint>, tx: MsgTx, i: nat, ts: int, p: TxPoint)
    requires Tallies(badgeValues, vins)
    ensures var was := if p.badgeCode in badgeValues then badgeValues[p.badgeCode] else 0;
            Tallies(badgeValues[p.badgeCode := Add64(was, p.value)], vins + [NewVin(tx, i, ts, p)])
  {
    var v := NewVin(tx, i, ts, p);
    if p.badgeCode !in badgeValues {
      assert forall u | u in vins :: u.badgeCode in CodesIn(vins);
      ConsumedOfAbsent(vins, p.badgeCode);
    }
    AddIsSubOfNeg(ConsumedOf(vins, p.badgeCode), p.value);
    CodesInNext(vins, v);
    hide Add64, Sub64, Neg64, ConsumedOf;
    forall b ensures ConsumedOf(vins + [v], b) ==
        if b == p.badgeCode then Sub64(ConsumedOf(vins, b), Neg64(p.value)) else ConsumedOf(vins, b)
    {
      ConsumedOfNext(vins, v, b);
    }
  }

  lemma ConsumedOfNext(vins: seq<TxPoint>, v: TxPoint, b: Txid)
    ensures ConsumedOf(vins + [v], b) ==
            if v.badgeCode == b then Sub64(ConsumedOf(vins, b), v.value) else ConsumedOf(vins, b)
  {
    assert (vins + [v])[..|vins + [v]| - 1] == vins;
  }

  /** More than one tallied badge means mixed vins; otherwise the one tally is the budget. */
  lemma TallyDecides(badgeValues: map<Txid, int>, vins: seq<TxPoint>)
    requires Tallies(badgeValues, vins)
    ensures |badgeValues| > 1 <==> MixesBadges(vins)
    ensures badgeValues == map[] <==> vins == []
    ensures !MixesBadges(vins) ==> forall b | b in badgeValues ::
              b == vins[0].badgeCode && badgeValues[b] == Consumed(vins)
  {
    if vins == [] {
      assert badgeValues.Keys == {};
    } else {
      var b := vins[0].badgeCode;
      assert vins[0] in vins && b in badgeValues;
      if MixesBadges(vins) {
        var i, j :| 0 <= i < j < |vins| && vins[i].badgeCode != vins[j].badgeCode;
        assert vins[i] in vins && vins[j] in vins;
        assert {vins[i].badgeCode, vins[j].badgeCode} <= badgeValues.Keys;
        CardinalityOfSubset({vins[i].badgeCode, vins[j].badgeCode}, badgeValues.Keys);
      } else {
        forall v | v in vins ensures v.badgeCode == b {
          var n :| 0 <= n < |vins| && vins[n] == v;
        }
        assert badgeValues.Keys == {b};
        ConsumedOfAll(vins, b);
      }
    }
  }

  lemma {:induction false} CardinalityOfSubset(a: set<Txid>, b: set<Txid>)
    requires a <= b
    ensures |a| <= |b|
  {
    if a != {} {
      var x :| x in a;
      CardinalityOfSubset(a - {x}, b - {x});
    }
  }

  /** The vouts gathered so far in front of what the rest of the loop will give. */
  function Prepend(ps: seq<TxPoint>, rest: Option<seq<TxPoint>>): Option<seq<TxPoint>> {
    match rest
    case None => None
    case Some(qs) => Some(ps + qs)
  }

  lemma PrependNone(rest: Option<seq<TxPoint>>)
    ensures Prepend([], rest) == rest
  {
    if rest.Some? {
      assert [] + rest.value == rest.value;
    }
  }

  lemma PrependNext(ps: seq<TxPoint>, p: TxPoint, qs: seq<TxPoint>)
    ensures Prepend(ps, Some([p] + qs)) == Prepend(ps + [p], Some(qs))
  {
    assert ps + ([p] + qs) == ps + [p] + qs;
  }

  // ----- the fields of a new row

  /** A row as a parse of `tx` at time `ts` makes it: of that transaction, of that time, not marked spent. */
  predicate IsNew(tx: MsgTx, ts: int, kind: Kind, p: TxPoint) {
    && p.txid == tx.txid && p.kind == kind && p.timestamp == ts && p.state == MayBeUnspent
    && (kind == Vout ==> p.preTxid == "" && p.preIndex == -1)
  }

  lemma {:induction false} ScannedAreNew(l: Ledger, tx: MsgTx, ts: int, n: nat)
    requires n <= |tx.ins| && ScanVins(l, tx, ts, n).Some?
    ensures forall p | p in ScanVins(l, tx, ts, n).value.vins :: IsNew(tx, ts, Vin, p)
  {
    if n > 0 {
      ScannedAreNew(l, tx, ts, n - 1);
    }
  }

  lemma {:induction false} TakenAreNew(tx: MsgTx, ts: int, code: Txid, budget: int, j: nat)
    requires j <= |tx.outs| && TakeVouts(tx, ts, code, budget, j).Some?
    ensures forall p | p in TakeVouts(tx, ts, code, budget, j).value :: IsNew(tx, ts, Vout, p)
    decreases |tx.outs| - j
  {
    hide ParseBadgeVoutScript, Sub64;
    if j < |tx.outs| {
      match ParseBadgeVoutScript(tx.outs[j].script)
      case None => TakenAreNew(tx, ts, code, budget, j + 1);
      case Some(out) => TakenAreNew(tx, ts, code, Sub64(budget, out.value), j + 1);
    }
  }

  /** Every row a parse yields carries the time of the parse. */
  lemma ParsedAreNew(l: Ledger, tx: MsgTx, ts: int)
    requires Parse(l, tx, ts).Some?
    ensures forall p | p in Parse(l, tx, ts).value.vins :: IsNew(tx, ts, Vin, p)
    ensures forall p | p in Parse(l, tx, ts).value.vouts :: IsNew(tx, ts, Vout, p)
  {
    hide ParseBadgeVoutScript, TakeVouts, MixesBadges, IsNew;
    ScannedAreNew(l, tx, ts, |tx.ins|);
    var vins := ScanVins(l, tx, ts, |tx.ins|).value.vins;
    if TakeVouts(tx, ts, BadgeCodeOf(tx, vins), BudgetOf(vins), 0).Some? {
      TakenAreNew(tx, ts, BadgeCodeOf(tx, vins), BudgetOf(vins), 0);
    }
  }

  // ----- results

  /** ProcessMsgTx: an inventory, the "unknow utxo" error, or no row whose state could be set. */
  datatype Outcome = Processed(inventory: TxInventory) | UnknowUtxo | NoTxInfo

  function OutcomeOf(l: Ledger, tx: MsgTx, ts: int): Outcome {
    if tx.txid !in l.infos then NoTxInfo else
    match Parse(l, tx, ts)
    case None => UnknowUtxo
    case Some(inv) => Processed(inv)
  }

  // ----- processing a list

  function ProcessAll(l: Ledger, txs: seq<MsgTx>, ts: int): Ledger
    decreases |txs|
  {
    if txs == [] then l else ProcessAll(Process(l, txs[0], ts), txs[1..], ts)
  }

  /** The outcomes, in order. */
  function OutcomesOf(l: Ledger, txs: seq<MsgTx>, ts: int): (r: seq<Outcome>)
    ensures |r| == |txs|
    decreases |txs|
  {
    if txs == [] then [] else [OutcomeOf(l, txs[0], ts)] + OutcomesOf(Process(l, txs[0], ts), txs[1..], ts)
  }

  lemma {:induction false} ProcessAllNext(l: Ledger, txs: seq<MsgTx>, tx: MsgTx, ts: int)
    ensures ProcessAll(l, txs + [tx], ts) == Process(ProcessAll(l, txs, ts), tx, ts)
    ensures OutcomesOf(l, txs + [tx], ts) == OutcomesOf(l, txs, ts) + [OutcomeOf(ProcessAll(l, txs, ts), tx, ts)]
    decreases |txs|
  {
    hide Process, OutcomeOf;
    if txs == [] {
      assert (txs + [tx])[1..] == [];
    } else {
      assert (txs + [tx])[1..] == txs[1..] + [tx];
      ProcessAllNext(Process(l, txs[0], ts), txs[1..], tx, ts);
    }
  }

  /** What ProcessMsgTxs reports: the inventories of the successes, the txids of the failures. */
  function InventoriesIn(outcomes: seq<Outcome>): seq<TxInventory> {
    if outcomes == [] then [] else
    var last := outcomes[|outcomes| - 1];
    InventoriesIn(outcomes[..|outcomes| - 1]) + if last.Processed? then [last.inventory] else []
  }

  function FailedIn(txs: seq<MsgTx>, outcomes: seq<Outcome>): seq<Txid>
    requires |txs| == |outcomes|
  {
    if txs == [] then [] else
    var n := |txs| - 1;
    FailedIn(txs[..n], outcomes[..n]) + if outcomes[n].Processed? then [] else [txs[n].txid]
  }

  lemma ReportNext(txs: seq<MsgTx>, tx: MsgTx, outcomes: seq<Outcome>, o: Outcome)
    requires |txs| == |outcomes|
    ensures InventoriesIn(outcomes + [o]) == InventoriesIn(outcomes) + if o.Processed? then [o.inventory] else []
    ensures FailedIn(txs + [tx], outcomes + [o]) == FailedIn(txs, outcomes) + if o.Processed? then [] else [tx.txid]
  {
    assert (outcomes + [o])[..|outcomes|] == outcomes && (txs + [tx])[..|txs|] == txs;
  }

  lemma {:induction false} AllProcessed(txs: seq<MsgTx>, outcomes: seq<Outcome>)
    requires |txs| == |outcomes| && forall o | o in outcomes :: o.Processed?
    ensures FailedIn(txs, outcomes) == [] && |InventoriesIn(outcomes)| == |txs|
  {
    if txs != [] {
      var n := |txs| - 1;
      AllProcessed(txs[..n], outcomes[..n]);
      assert outcomes[n] in outcomes;
    }
  }

  /** Every call is reported once. */
  lemma {:induction false} ReportCount(txs: seq<MsgTx>, outcomes: seq<Outcome>)
    requires |txs| == |outcomes|
    ensures |InventoriesIn(outcomes)| + |FailedIn(txs, outcomes)| == |txs|
  {
    if txs != [] {
      var n := |txs| - 1;
      ReportCount(txs[..n], outcomes[..n]);
    }
  }

  ghost predicate BadgeParentsClosed(l: Ledger, tx: MsgTx) {
    forall vin | vin in tx.ins && IsBadgeVin(vin) :: IsClosed(l, vin.prev.txid)
  }

  lemma {:induction false} ScanSucceeds(l: Ledger, tx: MsgTx, ts: int, n: nat)
    requires n <= |tx.ins| && BadgeParentsClosed(l, tx)
    ensures ScanVins(l, tx, ts, n).Some?
  {
    if n > 0 {
      ScanSucceeds(l, tx, ts, n - 1);
      assert tx.ins[n - 1] in tx.ins;
    }
  }

  /** A recorded transaction whose badge parents are closed is closed by one call. */
  lemma ProcessCloses(l: Ledger, tx: MsgTx, ts: int)
    requires tx.txid in l.infos && BadgeParentsClosed(l, tx)
    ensures IsClosed(Process(l, tx, ts), tx.txid) && OutcomeOf(l, tx, ts).Processed?
    ensures forall id | IsClosed(l, id) :: IsClosed(Process(l, tx, ts), id)
    ensures Process(l, tx, ts).infos.Keys == l.infos.Keys
  {
    hide AddPoints, FinishParse;
    ScanSucceeds(l, tx, ts, |tx.ins|);
  }

  /** Every transaction of the batch is recorded, and its badge parents are closed already or in the batch. */
  ghost predicate Supplied(l: Ledger, txs: seq<MsgTx>) {
    forall tx | tx in txs ::
      && tx.txid in l.infos
      && forall vin | vin in tx.ins && IsBadgeVin(vin) :: IsClosed(l, vin.prev.txid) || Mentions(txs, vin.prev.txid)
  }

  /** In topological order one pass closes everything: nothing is left waiting for a parent. */
  lemma {:induction false} OnePassFrom(l: Ledger, txs: seq<MsgTx>, i: nat, ts: int)
    requires i <= |txs| && Topological(txs) && Supplied(l, txs)
    requires forall tx | tx in txs[..i] :: IsClosed(l, tx.txid)
    ensures forall tx | tx in txs :: IsClosed(ProcessAll(l, txs[i..], ts), tx.txid)
    ensures forall o | o in OutcomesOf(l, txs[i..], ts) :: o.Processed?
    decreases |txs| - i
  {
    hide Process, OutcomeOf;
    if i < |txs| {
      var tx := txs[i];
      forall vin | vin in tx.ins && IsBadgeVin(vin) ensures IsClosed(l, vin.prev.txid) {
        assert tx in txs && ParentsBefore(txs, i);
        if Mentions(txs, vin.prev.txid) {
          var j :| 0 <= j < i && txs[..i][j].txid == vin.prev.txid;
          assert txs[..i][j] in txs[..i];
        }
      }
      ProcessCloses(l, tx, ts);
      assert txs[..i + 1] == txs[..i] + [tx];
      OnePassFrom(Process(l, tx, ts), txs, i + 1, ts);
      assert txs[i..][1..] == txs[i + 1..];
    } else {
      assert txs[..i] == txs && txs[i..] == [];
    }
  }

  /** One pass suffices, whatever order the batch arrived in. */
  lemma OnePass(l: Ledger, batch: seq<MsgTx>, sorted: seq<MsgTx>, ts: int)
    requires SameBatch(batch, sorted) && Topological(sorted) && Supplied(l, batch)
    ensures forall tx | tx in batch :: IsClosed(ProcessAll(l, sorted, ts), tx.txid)
    ensures forall o | o in OutcomesOf(l, sorted, ts) :: o.Processed?
  {
    SameBatchMembers(batch, sorted);
    assert sorted[0..] == sorted;
    OnePassFrom(l, sorted, 0, ts);
  }

  // ----- the parse is the meaning

  /** What a lookup answers agrees with what the outpoint means. */
  lemma LookupIsHolds(c: Chain, l: Ledger, op: OutPoint)
    requires LedgerOk(c, l)
    ensures match LookupIn(l, op)
            case Found(p) => VoutKey(op) in l.points && p == l.points[VoutKey(op)] && Holds(c, op) == Found(Content(p))
            case IllegalVin => Holds(c, op) == IllegalVin
            case UnknownUtxo => true
  {
    hide ParseBadgeVoutScript;
    if VoutKey(op) in l.points {
      StoredVout(c, l.points, op);
    } else if IsClosed(l, op.txid) {
      AbsentVout(c, l.points, op);
    }
  }

  lemma {:induction false} ScanIsRef(c: Chain, l: Ledger, tx: MsgTx, ts: int, n: nat)
    requires LedgerOk(c, l) && ChainTx(c, tx) && n <= |tx.ins| && ScanVins(l, tx, ts, n).Some?
    ensures ScanVins(l, tx, ts, n).value == RefScan(c, tx.txid, ts, n)
    ensures HasSpent(l.points, RefScan(c, tx.txid, ts, n).vins)
  {
    hide ParseBadgeVoutScript, LookupIn, Holds;
    if n > 0 {
      hide LedgerOk, ScanVin, HasSpent;
      ScanIsRef(c, l, tx, ts, n - 1);
      if IsBadgeVin(tx.ins[n - 1]) {
        var op := tx.ins[n - 1].prev;
        LookupIsHolds(c, l, op);
        ScanNext(c, l.points, tx, ts, n - 1, RefScan(c, tx.txid, ts, n - 1), LookupIn(l, op));
      }
    }
  }

  /** On any reachable ledger a parse that succeeds yields the transaction's meaning. */
  lemma ParseIsMeaning(c: Chain, l: Ledger, tx: MsgTx, ts: int)
    requires LedgerOk(c, l) && ChainTx(c, tx) && Parse(l, tx, ts).Some?
    ensures Parse(l, tx, ts).value == Meaning(c, tx.txid, ts)
  {
    ScanIsRef(c, l, tx, ts, |tx.ins|);
  }

  // ----- what a pass reports

  /** `inv` is the meaning of one of `txids`. */
  ghost predicate IsMeaningOf(c: Chain, txids: seq<Txid>, ts: int, inv: TxInventory) {
    exists t | t in txids :: t in c.txs && inv == Meaning(c, t, ts)
  }

  /** One call reports the meaning of its transaction, and closes no other. */
  lemma OutcomeIsMeaning(c: Chain, l: Ledger, tx: MsgTx, ts: int)
    requires LedgerOk(c, l) && ChainTx(c, tx)
    ensures OutcomeOf(l, tx, ts).Processed? ==> OutcomeOf(l, tx, ts).inventory == Meaning(c, tx.txid, ts)
    ensures IsClosed(Process(l, tx, ts), tx.txid) ==> OutcomeOf(l, tx, ts).Processed?
    ensures forall t | t != tx.txid :: IsClosed(Process(l, tx, ts), t) <==> IsClosed(l, t)
  {
    hide LedgerOk, Meaning, AddPoints;
    if Parse(l, tx, ts).Some? {
      ParseIsMeaning(c, l, tx, ts);
    }
    hide Parse;
  }

  /** A pass reports meanings only, and the meaning of every transaction it closes. */
  lemma {:induction false} PassReports(c: Chain, l: Ledger, txs: seq<MsgTx>, ts: int)
    requires LedgerOk(c, l) && forall tx | tx in txs :: ChainTx(c, tx)
    ensures LedgerOk(c, ProcessAll(l, txs, ts))
    ensures forall inv | inv in InventoriesIn(OutcomesOf(l, txs, ts)) ::
              exists tx | tx in txs :: ChainTx(c, tx) && inv == Meaning(c, tx.txid, ts)
    ensures forall t | t in c.txs && IsClosed(ProcessAll(l, txs, ts), t) && !IsClosed(l, t) ::
              Meaning(c, t, ts) in InventoriesIn(OutcomesOf(l, txs, ts))
    decreases |txs|
  {
    hide LedgerOk, Meaning, Process, OutcomeOf, IsClosed;
    if txs != [] {
      var n := |txs| - 1;
      var front, tx := txs[..n], txs[n];
      assert txs == front + [tx];
      PassReports(c, l, front, ts);
      ProcessAllNext(l, front, tx, ts);
      var l' := ProcessAll(l, front, ts);
      var outcome := OutcomeOf(l', tx, ts);
      ReportNext(front, tx, OutcomesOf(l, front, ts), outcome);
      OutcomeIsMeaning(c, l', tx, ts);
      ProcessKeeps(c, l', tx, ts);
      hide ProcessAll, OutcomesOf, InventoriesIn, Process, OutcomeOf, ChainTx, Grows;
    }
  }
}
