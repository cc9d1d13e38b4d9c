/**
 * The badge protocol stated as rules over the chain, in exact integers: what each outpoint holds.
 * The interpreter, with its int64 accumulators and its early returns, computes exactly this.
 */
module Protocol {
  import opened Int64
  import opened Script
  import opened Model
  import opened Chains
  import opened Store
  import opened Sums
  import opened Workers
  import opened Conservation

  datatype Holding = Holding(addr: Addr, value: int, code: Txid)

  /** The badge outputs of a transaction claim this much, from output `j` on. */
  function Claimed(tx: MsgTx, j: nat): int
    requires j <= |tx.outs|
    decreases |tx.outs| - j
  {
    if j == |tx.outs| then 0 else
    match ParseBadgeVoutScript(tx.outs[j].script)
    case None => Claimed(tx, j + 1)
    case Some(out) => out.value + Claimed(tx, j + 1)
  }

  predicate IsIssuance(tx: MsgTx) {
    forall i | 0 <= i < |tx.ins| :: !IsBadgeVin(tx.ins[i])
  }

  /** What the first `n` inputs bring, in exact integers. */
  ghost function Brought(c: Chain, id: Txid, n: nat): int
    requires id in c.txs && n <= |c.txs[id].ins|
    decreases c.rank[id] + 1, 0, n
  {
    if n == 0 then 0 else
    var vin := c.txs[id].ins[n - 1];
    Brought(c, id, n - 1) +
      if IsBadgeVin(vin) && Token(c, vin.prev).Some? then Token(c, vin.prev).value.value else 0
  }

  /**
   * A transaction obeys the protocol when none of its badge inputs is empty, they are all of one
   * badge, and its badge outputs claim no more than they bring. With no badge input it issues its
   * own badge, up to the cap.
   */
  ghost predicate Obeys(c: Chain, id: Txid)
    requires id in c.txs
    decreases c.rank[id] + 1, 0, |c.txs[id].ins| + 1
  {
    var tx := c.txs[id];
    if IsIssuance(tx) then Claimed(tx, 0) <= MAX_CREATE_BADGE_VALUE
    else
      && (forall i | 0 <= i < |tx.ins| && IsBadgeVin(tx.ins[i]) :: Token(c, tx.ins[i].prev).Some?)
      && (forall i, j | 0 <= i < j < |tx.ins| && IsBadgeVin(tx.ins[i]) && IsBadgeVin(tx.ins[j]) ::
            Token(c, tx.ins[i].prev).value.code == Token(c, tx.ins[j].prev).value.code)
      && Claimed(tx, 0) <= Brought(c, id, |tx.ins|)
  }

  /** The badge an obeying transaction moves: its own if it issues, else that of its inputs. */
  ghost function BadgeOf(c: Chain, id: Txid): Txid
    requires id in c.txs && Obeys(c, id)
    decreases c.rank[id] + 1, 0, |c.txs[id].ins| + 2
  {
    var tx := c.txs[id];
    if IsIssuance(tx) then id
    else var i :| 0 <= i < |tx.ins| && IsBadgeVin(tx.ins[i]); Token(c, tx.ins[i].prev).value.code
  }

  /** An outpoint holds a token when its script is a badge script and its transaction obeys. */
  ghost function Token(c: Chain, op: OutPoint): Option<Holding>
    decreases if op.txid in c.txs then c.rank[op.txid] + 1 else 0, 1, 0
  {
    if op.txid !in c.txs || op.index >= |c.txs[op.txid].outs| then None else
    match ParseBadgeVoutScript(c.txs[op.txid].outs[op.index].script)
    case None => None
    case Some(out) =>
      if Obeys(c, op.txid) then Some(Holding(P2pkh(out.address), out.value, BadgeOf(c, op.txid))) else None
  }

  /** What the interpreter's meaning says an outpoint holds. */
  ghost function Interpreted(c: Chain, op: OutPoint): Option<Holding> {
    match Holds(c, op)
    case Found(p) => Some(Holding(p.addr, p.value, p.badgeCode))
    case _ => None
  }

  // ----- the vout loop accepts exactly when the claim fits

  lemma {:induction false} VoutLoop(tx: MsgTx, code: Txid, budget: int, j: nat)
    requires j <= |tx.outs| && 0 <= budget <= MAX_INT64
    ensures TakeVouts(tx, 0, code, budget, j).Some? <==> Claimed(tx, j) <= budget
    ensures 0 <= Claimed(tx, j)
    decreases |tx.outs| - j
  {
    hide ParseBadgeVoutScript;
    if j < |tx.outs| {
      match ParseBadgeVoutScript(tx.outs[j].script)
      case None => VoutLoop(tx, code, budget, j + 1);
      case Some(out) =>
        BadgeValueRange(tx.outs[j].script);
        if out.value <= budget {
          VoutLoop(tx, code, budget - out.value, j + 1);
        } else {
          VoutLoop(tx, code, 0, j + 1);
        }
    }
  }

  lemma {:induction false} VoutLoopComplete(tx: MsgTx, code: Txid, budget: int, j: nat, i: nat)
    requires j <= i < |tx.outs| && TakeVouts(tx, 0, code, budget, j).Some?
    requires ParseBadgeVoutScript(tx.outs[i].script).Some?
    ensures NewVout(tx, i, 0, code, ParseBadgeVoutScript(tx.outs[i].script).value)
            in TakeVouts(tx, 0, code, budget, j).value
    decreases |tx.outs| - j
  {
    hide ParseBadgeVoutScript;
    match ParseBadgeVoutScript(tx.outs[j].script)
    case None => VoutLoopComplete(tx, code, budget, j + 1, i);
    case Some(out) =>
      if j < i {
        VoutLoopComplete(tx, code, Sub64(budget, out.value), j + 1, i);
      }
  }

  // ----- the vin loop gathers exactly the inputs

  ghost predicate AgreesBelow(c: Chain, id: Txid)
    requires id in c.txs
  {
    forall i | 0 <= i < |c.txs[id].ins| :: Token(c, c.txs[id].ins[i].prev) == Interpreted(c, c.txs[id].ins[i].prev)
  }

  lemma {:induction false} BroughtIs(c: Chain, id: Txid, n: nat)
    requires id in c.txs && n <= |c.txs[id].ins| && AgreesBelow(c, id)
    ensures Brought(c, id, n) == -SumValues(RefScan(c, id, 0, n).vins)
  {
    hide Brought, RefScan, SumValues, Token, Holds, IsBadgeVin;
    if n == 0 {
      BroughtNothing(c, id);
    } else {
      BroughtIs(c, id, n - 1);
      BroughtNext(c, id, n - 1);
      ScannedSum(c, id, n - 1);
      var vin := c.txs[id].ins[n - 1];
      assert Token(c, vin.prev) == Interpreted(c, vin.prev);
    }
  }

  lemma BroughtNothing(c: Chain, id: Txid)
    requires id in c.txs
    ensures Brought(c, id, 0) == 0 && SumValues(RefScan(c, id, 0, 0).vins) == 0
  {
    hide ParseBadgeVoutScript, Meaning, Token;
  }

  lemma BroughtNext(c: Chain, id: Txid, i: nat)
    requires id in c.txs && i < |c.txs[id].ins|
    ensures var vin := c.txs[id].ins[i];
            Brought(c, id, i + 1) == Brought(c, id, i)
            + if IsBadgeVin(vin) && Token(c, vin.prev).Some? then Token(c, vin.prev).value.value else 0
  {
    hide ParseBadgeVoutScript, Token;
  }

  /** One more input adds what it holds to the scanned total. */
  lemma ScannedSum(c: Chain, id: Txid, i: nat)
    requires id in c.txs && i < |c.txs[id].ins|
    ensures var vin := c.txs[id].ins[i];
            SumValues(RefScan(c, id, 0, i + 1).vins) ==
            SumValues(RefScan(c, id, 0, i).vins)
            - if IsBadgeVin(vin) && Holds(c, vin.prev).Found? then Holds(c, vin.prev).point.value else 0
  {
    hide ParseBadgeVoutScript, Meaning;
    var vin := c.txs[id].ins[i];
    var before, after := RefScan(c, id, 0, i).vins, RefScan(c, id, 0, i + 1).vins;
    if IsBadgeVin(vin) && Holds(c, vin.prev).Found? {
      FoundRow(c, vin.prev);
      assert after == before + [NewVin(c.txs[id], i, 0, Holds(c, vin.prev).point)];
      assert after[..|after| - 1] == before;
    } else {
      assert after == before;
    }
  }

  lemma IllegalIs(c: Chain, id: Txid)
    requires id in c.txs && AgreesBelow(c, id)
    ensures var tx := c.txs[id];
            !RefScan(c, id, 0, |tx.ins|).illegal <==>
            forall i | 0 <= i < |tx.ins| && IsBadgeVin(tx.ins[i]) :: Token(c, tx.ins[i].prev).Some?
  {
    hide ParseBadgeVoutScript, Token, RefScan;
    var tx := c.txs[id];
    ScannedIllegal(c, id, 0, |tx.ins|);
    forall i | 0 <= i < |tx.ins| && IsBadgeVin(tx.ins[i])
      ensures Token(c, tx.ins[i].prev).None? <==> IsIllegalVin(c, id, i)
    {
      assert Token(c, tx.ins[i].prev) == Interpreted(c, tx.ins[i].prev);
    }
  }

  /** The gathered vins are the badge inputs, with the codes of the tokens they spend. */
  lemma GatheredVins(c: Chain, id: Txid)
    requires id in c.txs && AgreesBelow(c, id) && !RefScan(c, id, 0, |c.txs[id].ins|).illegal
    ensures var tx, vins := c.txs[id], RefScan(c, id, 0, |c.txs[id].ins|).vins;
            && (forall v | v in vins ::
                  && v.index < |tx.ins| && IsBadgeVin(tx.ins[v.index])
                  && Token(c, tx.ins[v.index].prev).Some?
                  && Token(c, tx.ins[v.index].prev).value.code == v.badgeCode)
            && (forall i | 0 <= i < |tx.ins| && IsBadgeVin(tx.ins[i]) :: exists v | v in vins :: v.index == i)
  {
    hide ParseBadgeVoutScript, Token;
    var tx, vins := c.txs[id], RefScan(c, id, 0, |c.txs[id].ins|).vins;
    ScannedVins(c, id, 0, |tx.ins|);
    forall v | v in vins
      ensures Token(c, tx.ins[v.index].prev).Some? && Token(c, tx.ins[v.index].prev).value.code == v.badgeCode
    {
      assert IsVinRow(c, id, 0, v);
      assert Token(c, tx.ins[v.index].prev) == Interpreted(c, tx.ins[v.index].prev);
    }
    IllegalIs(c, id);
    forall i | 0 <= i < |tx.ins| && IsBadgeVin(tx.ins[i]) ensures exists v | v in vins :: v.index == i {
      assert Token(c, tx.ins[i].prev) == Interpreted(c, tx.ins[i].prev);
      ScanIsComplete(c, id, 0, |tx.ins|, i);
    }
  }

  lemma VoutAtFinish(tx: MsgTx, scan: VinScan, index: nat)
    requires !MixesBadges(scan.vins) ==> 0 <= BudgetOf(scan.vins) <= MAX_INT64
    ensures VoutAt(FinishParse(tx, 0, scan).vouts, index) ==
            if && !scan.illegal && !MixesBadges(scan.vins) && Claimed(tx, 0) <= BudgetOf(scan.vins)
               && index < |tx.outs| && ParseBadgeVoutScript(tx.outs[index].script).Some?
            then Found(NewVout(tx, index, 0, BadgeCodeOf(tx, scan.vins),
              ParseBadgeVoutScript(tx.outs[index].script).value))
            else IllegalVin
  {
    hide ParseBadgeVoutScript;
    var code, budget := BadgeCodeOf(tx, scan.vins), BudgetOf(scan.vins);
    if !scan.illegal && !MixesBadges(scan.vins) {
      VoutLoop(tx, code, budget, 0);
      if Claimed(tx, 0) <= budget {
        TakenVouts(tx, 0, code, budget, 0);
        var vouts := TakeVouts(tx, 0, code, budget, 0).value;
        assert forall p | p in vouts :: IsVoutRow(tx, 0, code, p);
        if index < |tx.outs| && ParseBadgeVoutScript(tx.outs[index].script).Some? {
          VoutLoopComplete(tx, code, budget, 0, index);
        }
      }
    }
  }

  /** All badge inputs of a transaction hold tokens of badge `code`. */
  ghost predicate AllOfBadge(c: Chain, tx: MsgTx, code: Txid) {
    forall i | 0 <= i < |tx.ins| && IsBadgeVin(tx.ins[i]) ::
      Token(c, tx.ins[i].prev).Some? && Token(c, tx.ins[i].prev).value.code == code
  }

  lemma NoIssuance(c: Chain, id: Txid)
    requires id in c.txs && AgreesBelow(c, id) && !RefScan(c, id, 0, |c.txs[id].ins|).illegal
    ensures RefScan(c, id, 0, |c.txs[id].ins|).vins == [] <==> IsIssuance(c.txs[id])
  {
    hide ParseBadgeVoutScript, Token;
    var vins := RefScan(c, id, 0, |c.txs[id].ins|).vins;
    GatheredVins(c, id);
    if vins != [] {
      assert vins[0] in vins;
    }
  }

  lemma FirstCodeDecides(vins: seq<TxPoint>)
    requires vins != []
    ensures !MixesBadges(vins) <==> forall v | v in vins :: v.badgeCode == vins[0].badgeCode
  {
    if !MixesBadges(vins) {
      forall v | v in vins ensures v.badgeCode == vins[0].badgeCode {
        var n :| 0 <= n < |vins| && vins[n] == v;
      }
    }
  }

  /** The interpreter sees one badge exactly when all badge inputs are of the first one's. */
  lemma OneBadge(c: Chain, id: Txid)
    requires id in c.txs && AgreesBelow(c, id)
    requires var scan := RefScan(c, id, 0, |c.txs[id].ins|); !scan.illegal && scan.vins != []
    ensures var vins := RefScan(c, id, 0, |c.txs[id].ins|).vins;
            !MixesBadges(vins) <==> AllOfBadge(c, c.txs[id], BadgeCodeOf(c.txs[id], vins))
  {
    hide ParseBadgeVoutScript, Token, RefScan, AgreesBelow, MixesBadges;
    var tx, vins := c.txs[id], RefScan(c, id, 0, |c.txs[id].ins|).vins;
    IllegalIs(c, id);
    GatheredVins(c, id);
    FirstCodeDecides(vins);
    if !MixesBadges(vins) {
      forall i | 0 <= i < |tx.ins| && IsBadgeVin(tx.ins[i])
        ensures Token(c, tx.ins[i].prev).value.code == BadgeCodeOf(tx, vins)
      {
        var v :| v in vins && v.index == i;
      }
    }
  }

  /** Pairwise agreement of the badge inputs is agreement with any one of them. */
  lemma PairwiseIsAll(c: Chain, tx: MsgTx, k: nat)
    requires k < |tx.ins| && IsBadgeVin(tx.ins[k])
    requires forall i | 0 <= i < |tx.ins| && IsBadgeVin(tx.ins[i]) :: Token(c, tx.ins[i].prev).Some?
    ensures AllOfBadge(c, tx, Token(c, tx.ins[k].prev).value.code) <==>
            forall i, j | 0 <= i < j < |tx.ins| && IsBadgeVin(tx.ins[i]) && IsBadgeVin(tx.ins[j]) ::
              Token(c, tx.ins[i].prev).value.code == Token(c, tx.ins[j].prev).value.code
  {
    hide Token, ParseBadgeVoutScript;
    if forall i, j | 0 <= i < j < |tx.ins| && IsBadgeVin(tx.ins[i]) && IsBadgeVin(tx.ins[j]) ::
         Token(c, tx.ins[i].prev).value.code == Token(c, tx.ins[j].prev).value.code
    {
      forall i | 0 <= i < |tx.ins| && IsBadgeVin(tx.ins[i])
        ensures Token(c, tx.ins[i].prev).value.code == Token(c, tx.ins[k].prev).value.code
      {
        if i < k {
        } else if k < i {
        }
      }
    }
  }

  lemma BudgetIs(c: Chain, id: Txid)
    requires id in c.txs && NoDoubleSpend(c) && AgreesBelow(c, id)
    ensures var vins := RefScan(c, id, 0, |c.txs[id].ins|).vins;
            !MixesBadges(vins) ==>
              && 0 <= BudgetOf(vins) <= MAX_INT64
              && BudgetOf(vins) == if vins == [] then MAX_INT64 else Brought(c, id, |c.txs[id].ins|)
  {
    hide ParseBadgeVoutScript, Token;
    assert RefScan(c, id, 0, |c.txs[id].ins|).vins == Vins(c, id);
    BroughtIs(c, id, |c.txs[id].ins|);
    NoOverflow(c, id);
    ExactBudget(c, id);
  }

  /** The interpreter accepts a transaction's vouts exactly when the transaction obeys the protocol. */
  lemma AcceptsIsObeys(c: Chain, id: Txid)
    requires id in c.txs && NoDoubleSpend(c) && AgreesBelow(c, id)
    ensures var tx, scan := c.txs[id], RefScan(c, id, 0, |c.txs[id].ins|);
            && (Obeys(c, id) <==> !scan.illegal && !MixesBadges(scan.vins) && Claimed(tx, 0) <= BudgetOf(scan.vins))
            && (Obeys(c, id) ==> BadgeOf(c, id) == BadgeCodeOf(tx, scan.vins))
  {
    hide ParseBadgeVoutScript, Token, RefScan, Brought, Claimed, Consumed, MixesBadges, AgreesBelow, NoDoubleSpend;
    var tx, scan := c.txs[id], RefScan(c, id, 0, |c.txs[id].ins|);
    IllegalIs(c, id);
    if scan.illegal {
      IssuanceIsLegal(c, id);
    } else {
      BudgetIs(c, id);
      NoIssuance(c, id);
      if scan.vins == [] {
        NothingMixes();
      } else {
        SpendsOneBadge(c, id);
      }
    }
  }

  lemma NothingMixes()
    ensures !MixesBadges([])
  {
  }

  lemma IssuanceIsLegal(c: Chain, id: Txid)
    requires id in c.txs
    ensures RefScan(c, id, 0, |c.txs[id].ins|).illegal ==> !IsIssuance(c.txs[id])
  {
    hide RefScan;
    ScannedIllegal(c, id, 0, |c.txs[id].ins|);
  }

  /**
   * A transfer mixes no badges exactly when its badge inputs agree pairwise, and then on the code the interpreter
   * uses.
   */
  lemma SpendsOneBadge(c: Chain, id: Txid)
    requires id in c.txs && AgreesBelow(c, id)
    requires var scan := RefScan(c, id, 0, |c.txs[id].ins|); !scan.illegal && scan.vins != []
    requires forall i | 0 <= i < |c.txs[id].ins| && IsBadgeVin(c.txs[id].ins[i]) ::
             Token(c, c.txs[id].ins[i].prev).Some?
    ensures var tx, vins := c.txs[id], RefScan(c, id, 0, |c.txs[id].ins|).vins;
            && (!MixesBadges(vins) <==>
                  forall i, j | 0 <= i < j < |tx.ins| && IsBadgeVin(tx.ins[i]) && IsBadgeVin(tx.ins[j]) ::
                    Token(c, tx.ins[i].prev).value.code == Token(c, tx.ins[j].prev).value.code)
            && (!MixesBadges(vins) ==>
                  forall i | 0 <= i < |tx.ins| && IsBadgeVin(tx.ins[i]) ::
                    Token(c, tx.ins[i].prev).value.code == BadgeCodeOf(tx, vins))
  {
    hide ParseBadgeVoutScript, Token, RefScan, MixesBadges, AgreesBelow;
    var tx, vins := c.txs[id], RefScan(c, id, 0, |c.txs[id].ins|).vins;
    OneBadge(c, id);
    GatheredVins(c, id);
    assert vins[0] in vins;
    PairwiseIsAll(c, tx, vins[0].index);
  }

  /**
   * On a chain without double spends, the interpreter gives each outpoint exactly what the protocol
   * says it holds. In particular none of its int64 operations ever departs from exact arithmetic.
   */
  lemma {:induction false} InterpreterIsProtocol(c: Chain, op: OutPoint)
    requires NoDoubleSpend(c)
    ensures Interpreted(c, op) == Token(c, op)
    decreases if op.txid in c.txs then c.rank[op.txid] + 1 else 0
  {
    hide ParseBadgeVoutScript;
    if op.txid in c.txs {
      var id, tx := op.txid, c.txs[op.txid];
      forall i | 0 <= i < |tx.ins| ensures Token(c, tx.ins[i].prev) == Interpreted(c, tx.ins[i].prev) {
        InterpreterIsProtocol(c, tx.ins[i].prev);
      }
      OneOutpoint(c, op);
    }
  }

  lemma OneOutpoint(c: Chain, op: OutPoint)
    requires NoDoubleSpend(c) && op.txid in c.txs && AgreesBelow(c, op.txid)
    ensures Interpreted(c, op) == Token(c, op)
  {
    hide ParseBadgeVoutScript, Obeys, BadgeOf, Claimed;
    BudgetIs(c, op.txid);
    AcceptsIsObeys(c, op.txid);
    VoutAtFinish(c.txs[op.txid], RefScan(c, op.txid, 0, |c.txs[op.txid].ins|), op.index);
    assert Holds(c, op) == VoutAt(Meaning(c, op.txid, 0).vouts, op.index);
  }

  /** So every stored vout, in every interleaved run, is what the protocol gives its outpoint. */
  lemma StoredVoutsFollowProtocol(c: Chain, s: System, op: OutPoint)
    requires Reachable(c, s) && NoDoubleSpend(c) && VoutKey(op) in s.ledger.points
    ensures var p := s.ledger.points[VoutKey(op)];
            Token(c, op) == Some(Holding(p.addr, p.value, p.badgeCode))
  {
    ReachableOk(c, s);
    StoredVout(c, s.ledger.points, op);
    InterpreterIsProtocol(c, op);
  }

  // ----- what is issued

  lemma {:induction false} TakenIsClaimed(tx: MsgTx, code: Txid, budget: int, j: nat)
    requires j <= |tx.outs| && 0 <= budget <= MAX_INT64 && TakeVouts(tx, 0, code, budget, j).Some?
    ensures SumValues(TakeVouts(tx, 0, code, budget, j).value) == Claimed(tx, j)
    decreases |tx.outs| - j
  {
    hide ParseBadgeVoutScript;
    if j < |tx.outs| {
      match ParseBadgeVoutScript(tx.outs[j].script)
      case None => TakenIsClaimed(tx, code, budget, j + 1);
      case Some(out) =>
        BadgeValueRange(tx.outs[j].script);
        TakenIsClaimed(tx, code, budget - out.value, j + 1);
        SumValuesConcat([NewVout(tx, j, 0, code, out)], TakeVouts(tx, 0, code, budget - out.value, j + 1).value);
    }
  }

  /**
   * What a badge's issuing transaction created is what its badge outputs claim, if it has no badge input and claims no
   * more than the cap of 2^63 - 1; otherwise nothing.
   */
  lemma IssuedIsClaimed(c: Chain, b: Txid)
    ensures Issued(c, b) ==
            if b in c.txs && IsIssuance(c.txs[b]) && Claimed(c.txs[b], 0) <= 0x7fff_ffff_ffff_ffff
            then Claimed(c.txs[b], 0) else 0
  {
    hide ParseBadgeVoutScript, Claimed, TakeVouts, RefScan;
    if b in c.txs {
      var tx, scan := c.txs[b], RefScan(c, b, 0, |c.txs[b].ins|);
      IssuanceScan(c, b);
      if scan.vins == [] && !scan.illegal {
        NothingMixes();
        VoutLoop(tx, b, MAX_INT64, 0);
        if TakeVouts(tx, 0, b, MAX_INT64, 0).Some? {
          TakenIsClaimed(tx, b, MAX_INT64, 0);
        }
      }
    }
  }

  /** A transaction has no badge input exactly when its scan gathers nothing and finds nothing illegal. */
  lemma IssuanceScan(c: Chain, id: Txid)
    requires id in c.txs
    ensures var scan := RefScan(c, id, 0, |c.txs[id].ins|);
            IsIssuance(c.txs[id]) <==> scan.vins == [] && !scan.illegal
  {
    hide ParseBadgeVoutScript, RefScan, Holds;
    var tx, scan := c.txs[id], RefScan(c, id, 0, |c.txs[id].ins|);
    ScannedIllegal(c, id, 0, |tx.ins|);
    if IsIssuance(tx) && scan.vins != [] {
      FirstScannedIsFlagged(c, id);
    }
    if !IsIssuance(tx) && !scan.illegal {
      var i :| 0 <= i < |tx.ins| && IsBadgeVin(tx.ins[i]);
      assert !IsIllegalVin(c, id, i);
      ScanIsComplete(c, id, 0, |tx.ins|, i);
    }
  }

  lemma FirstScannedIsFlagged(c: Chain, id: Txid)
    requires id in c.txs && RefScan(c, id, 0, |c.txs[id].ins|).vins != []
    ensures !IsIssuance(c.txs[id])
  {
    hide RefScan;
    var vins := RefScan(c, id, 0, |c.txs[id].ins|).vins;
    ScannedVins(c, id, 0, |c.txs[id].ins|);
    assert IsVinRow(c, id, 0, vins[0]);
  }

  // ----- provenance

  /** A stored vin of `a` spends an output of `b` under badge `code`. */
  ghost predicate Link(points: map<Key, TxPoint>, a: Txid, b: Txid, code: Txid) {
    exists k | k in points && k.kind == Vin && k.txid == a :: points[k].preTxid == b && points[k].badgeCode == code
  }

  ghost predicate Traces(points: map<Key, TxPoint>, path: seq<Txid>, code: Txid) {
    && path != [] && path[|path| - 1] == code
    && forall i | 0 <= i < |path| - 1 :: Link(points, path[i], path[i + 1], code)
  }

  lemma IssuerHasNoBadgeVins(c: Chain, id: Txid, p: TxPoint)
    requires id in c.txs && p in Vouts(c, id) && Vins(c, id) == []
    ensures IsIssuance(c.txs[id]) && p.badgeCode == id
  {
    hide ParseBadgeVoutScript;
    var tx := c.txs[id];
    VoutCode(c, id, p);
    forall i | 0 <= i < |tx.ins| ensures !IsBadgeVin(tx.ins[i]) {
      assert !IsIllegalVin(c, id, i);
      if IsBadgeVin(tx.ins[i]) {
        ScanIsComplete(c, id, 0, |tx.ins|, i);
      }
    }
  }

  /** A stored vout that is not an issuance has a stored vin of its badge, spending an older stored vout. */
  lemma SomeParent(c: Chain, points: map<Key, TxPoint>, k: Key) returns (j: Key)
    requires StoreOk(c, points) && k in points && k.kind == Vout && k.txid in c.txs && Vins(c, k.txid) != []
    ensures j in points && j.kind == Vin && j.txid == k.txid && points[j].badgeCode == points[k].badgeCode
    ensures var v := SpentKey(points[j]);
            v in points && points[v].badgeCode == points[k].badgeCode && v.txid in c.txs
              && c.rank[v.txid] < c.rank[k.txid]
  {
    hide ParseBadgeVoutScript, Meaning;
    var id, v := k.txid, Vins(c, k.txid)[0];
    StoredKinds(c, points, k);
    VoutCode(c, id, Content(points[k]));
    VinCopiesVout(c, id, v);
    StoredVin(c, points, id, v);
    j := KeyOf(v);
    StoredCopies(c, points, j);
    StoredKinds(c, points, j);
    SameKeySameRow(c, id, v, Content(points[j]));
  }

  lemma {:induction false} TraceBack(c: Chain, points: map<Key, TxPoint>, k: Key) returns (path: seq<Txid>, issue: Key)
    requires StoreOk(c, points) && k in points && k.kind == Vout
    ensures Traces(points, path, points[k].badgeCode) && path[0] == k.txid
    ensures issue in points && issue.kind == Vout && issue.txid == points[k].badgeCode
    ensures points[k].badgeCode in c.txs && IsIssuance(c.txs[points[k].badgeCode])
    decreases if k.txid in c.txs then c.rank[k.txid] else 0
  {
    hide ParseBadgeVoutScript, StoreOk, Meaning;
    IsStored(c, points, k);
    if Vins(c, k.txid) == [] {
      IssuerHasNoBadgeVins(c, k.txid, Content(points[k]));
      path, issue := [k.txid], k;
    } else {
      var j := SomeParent(c, points, k);
      var rest, first := TraceBack(c, points, SpentKey(points[j]));
      assert Link(points, k.txid, rest[0], points[k].badgeCode);
      path, issue := [k.txid] + rest, first;
    }
  }

  lemma IsStored(c: Chain, points: map<Key, TxPoint>, k: Key)
    requires StoreOk(c, points) && k in points && k.kind == Vout
    ensures k.txid in c.txs && Content(points[k]) in Vouts(c, k.txid)
  {
    StoredKinds(c, points, k);
  }

  /** The vouts of a transaction without badge inputs carry its own txid as code. */
  lemma IssueCode(c: Chain, points: map<Key, TxPoint>, issue: Key)
    requires StoreOk(c, points) && issue in points && issue.kind == Vout && issue.txid in c.txs
             && IsIssuance(c.txs[issue.txid])
    ensures points[issue].badgeCode == issue.txid
  {
    hide ParseBadgeVoutScript, Meaning;
    IsStored(c, points, issue);
    VoutCode(c, issue.txid, Content(points[issue]));
    if Vins(c, issue.txid) != [] {
      FirstVinIsFlagged(c, issue.txid);
    }
  }

  lemma FirstVinIsFlagged(c: Chain, id: Txid)
    requires id in c.txs && Vins(c, id) != []
    ensures exists i | 0 <= i < |c.txs[id].ins| :: IsBadgeVin(c.txs[id].ins[i])
  {
    VinRows(c, id, 0);
    assert IsVinRow(c, id, 0, Vins(c, id)[0]);
  }

  /**
   * Provenance: in every run, each stored vout's badge code is the txid of a transaction without badge
   * inputs that was itself processed here, with a stored vout, reached by following stored vins of that same badge.
   */
  lemma Provenance(c: Chain, s: System, k: Key) returns (path: seq<Txid>, issue: Key)
    requires Reachable(c, s) && k in s.ledger.points && k.kind == Vout
    ensures var points, code := s.ledger.points, s.ledger.points[k].badgeCode;
            && Traces(points, path, code) && path[0] == k.txid
            && code in c.txs && IsIssuance(c.txs[code])
            && issue in points && issue.kind == Vout && issue.txid == code && points[issue].badgeCode == code
  {
    ReachableOk(c, s);
    path, issue := TraceBack(c, s.ledger.points, k);
    IssueCode(c, s.ledger.points, issue);
  }

  /** A transaction with a stored vout has no empty badge input, and all its badge inputs are of that vout's badge. */
  lemma StoredVoutIsClean(c: Chain, s: System, k: Key, i: nat)
    requires Reachable(c, s) && k in s.ledger.points && k.kind == Vout
    ensures k.txid in c.txs
    ensures i < |c.txs[k.txid].ins| && IsBadgeVin(c.txs[k.txid].ins[i]) ==>
              && Holds(c, c.txs[k.txid].ins[i].prev).Found?
              && Holds(c, c.txs[k.txid].ins[i].prev).point.badgeCode == s.ledger.points[k].badgeCode
  {
    hide ParseBadgeVoutScript;
    ReachableOk(c, s);
    StoredKinds(c, s.ledger.points, k);
    var id, p := k.txid, Content(s.ledger.points[k]);
    VoutCode(c, id, p);
    var tx := c.txs[id];
    if i < |tx.ins| && IsBadgeVin(tx.ins[i]) {
      assert !IsIllegalVin(c, id, i);
      ScanIsComplete(c, id, 0, |tx.ins|, i);
      assert NewVin(tx, i, 0, Holds(c, tx.ins[i].prev).point) in Vins(c, id);
    }
  }
}
