/**
 * When two workers may process one transaction at once, CLOSED is not final. Exactly these transactions can be
 * reopened: those with a badge input that can be closed at all.
 */
module Reopening {
  import opened Model
  import opened Chains
  import opened Store
  import opened Workers
  import opened Batches
  import opened Closing

  ghost predicate HasBadgeInput(tx: MsgTx) {
    exists i | 0 <= i < |tx.ins| :: IsBadgeVin(tx.ins[i])
  }

  /** All badge ancestors of the transaction are on the chain. */
  ghost predicate Closable(c: Chain, id: Txid)
    requires id in c.txs
    decreases c.rank[id]
  {
    forall i | 0 <= i < |c.txs[id].ins| && IsBadgeVin(c.txs[id].ins[i]) ::
      c.txs[id].ins[i].prev.txid in c.txs && Closable(c, c.txs[id].ins[i].prev.txid)
  }

  /** Some run reaches a state in which the transaction is closed and one step from not being closed. */
  ghost predicate CanReopen(c: Chain, id: Txid) {
    exists s, step :: Reachable(c, s) && Reopens(c, s, step, id)
  }

  ghost predicate Reopens(c: Chain, s: System, step: Step, id: Txid) {
    IsClosed(s.ledger, id) && !IsClosed(Apply(c, s, step).ledger, id)
  }

  // ----- only such transactions

  ghost predicate CanClose(c: Chain, id: Txid) {
    id in c.txs && Closable(c, id)
  }

  ghost predicate ParentsCanClose(c: Chain, tx: MsgTx, n: nat)
    requires n <= |tx.ins|
  {
    forall i | 0 <= i < n && IsBadgeVin(tx.ins[i]) :: CanClose(c, tx.ins[i].prev.txid)
  }

  ghost predicate Rooted(c: Chain, wk: Worker) {
    match wk
    case Parsing(tx, ts, i, scan, stage) =>
      && ChainTx(c, tx) && i <= |tx.ins| && ParentsCanClose(c, tx, i)
      && (stage != FirstRead ==> i < |tx.ins| && IsBadgeVin(tx.ins[i]))
      && (stage == SecondRead ==> CanClose(c, tx.ins[i].prev.txid))
    case Inserting(tx, ts, rows, k) => CanClose(c, tx.txid) && forall p | p in rows :: p.txid == tx.txid
    case Finishing(tx, state) => if state == Closed then CanClose(c, tx.txid) else HasBadgeInput(tx)
    case Marking(vin, voutMarked) => true
  }

  /** What is stored or closed could be closed, and what writes OPEN has a badge input. */
  ghost predicate LedgerRooted(c: Chain, l: Ledger) {
    && (forall k | k in l.points :: CanClose(c, k.txid))
    && (forall id | IsClosed(l, id) :: CanClose(c, id))
  }

  ghost predicate SystemRooted(c: Chain, s: System) {
    LedgerRooted(c, s.ledger) && forall w | w in s.workers :: Rooted(c, s.workers[w])
  }

  lemma ParsingRooted(c: Chain, l: Ledger, tx: MsgTx, ts: int, i: nat, scan: VinScan, stage: Stage)
    requires LedgerRooted(c, l) && Rooted(c, Parsing(tx, ts, i, scan, stage)) && scan == RefScan(c, tx.txid, ts, i)
    ensures Rooted(c, AdvanceParsing(l, tx, ts, i, scan, stage))
  {
    hide FinishParse, ScanVin, RefScan;
    if i == |tx.ins| {
      RowTxids(c, tx.txid, ts);
      assert Meaning(c, tx.txid, ts) == FinishParse(tx, ts, scan);
    }
  }

  lemma AdvanceRooted(c: Chain, l: Ledger, wk: Worker)
    requires LedgerRooted(c, l) && Rooted(c, wk)
    requires wk.Parsing? ==> wk.scan == (if ChainTx(c, wk.tx) && wk.i <= |wk.tx.ins|
             then RefScan(c, wk.tx.txid, wk.ts, wk.i) else NO_VINS)
    ensures var (l', next) := AdvanceWorker(l, wk);
            LedgerRooted(c, l') && (next.Some? ==> Rooted(c, next.value))
  {
    hide CanClose, AdvanceParsing, RefScan, FinishParse;
    if wk.Parsing? {
      ParsingRooted(c, l, wk.tx, wk.ts, wk.i, wk.scan, wk.stage);
    }
  }

  lemma ApplyRooted(c: Chain, s: System, step: Step)
    requires SystemOk(c, s) && SystemRooted(c, s)
    ensures SystemRooted(c, Apply(c, s, step))
  {
    hide CanClose, AdvanceWorker, LedgerOk;
    match step
    case Record(id, height) =>
    case Start(w, id, ts) =>
    case Prune(w, key) =>
    case Advance(w) =>
      if w in s.workers {
        var wk := s.workers[w];
        assert WorkerOk(c, s.ledger.points, wk) && Rooted(c, wk);
        AdvanceRooted(c, s.ledger, wk);
      }
    case Stop(w) =>
  }

  lemma {:induction false} RunRooted(c: Chain, s: System, steps: seq<Step>)
    requires SystemOk(c, s) && SystemRooted(c, s)
    ensures SystemRooted(c, Run(c, s, steps))
    decreases |steps|
  {
    hide SystemOk, SystemRooted, Apply;
    if steps != [] {
      ApplyKeeps(c, s, steps[0]);
      ApplyRooted(c, s, steps[0]);
      RunRooted(c, Apply(c, s, steps[0]), steps[1..]);
    }
  }

  lemma ReachableRooted(c: Chain, s: System)
    requires Reachable(c, s)
    ensures SystemRooted(c, s)
  {
    hide Run;
    var steps :| Run(c, EMPTY, steps) == s;
    EmptyOk(c);
    RunRooted(c, EMPTY, steps);
  }

  /** One step takes CLOSED back only as the late write of a worker that had found a parent unknown. */
  lemma ReopenedByLateWrite(c: Chain, s: System, step: Step, id: Txid)
    requires Reopens(c, s, step, id)
    ensures step.Advance? && step.w in s.workers && s.workers[step.w].Finishing?
    ensures s.workers[step.w].tx.txid == id && s.workers[step.w].state != Closed
  {
    hide AdvanceParsing, AddPoint, MarkSpent;
  }

  lemma ReopenedIsRooted(c: Chain, s: System, step: Step, id: Txid)
    requires Reachable(c, s) && Reopens(c, s, step, id)
    ensures CanClose(c, id) && HasBadgeInput(c.txs[id])
  {
    ReopenedByLateWrite(c, s, step, id);
    ReachableRooted(c, s);
    ReachableOk(c, s);
    hide Reachable, Reopens, LedgerOk, CanClose;
    var wk := s.workers[step.w];
    assert Rooted(c, wk) && WorkerOk(c, s.ledger.points, wk);
  }

  // ----- and all of them

  /** Reachable systems are closed under single steps, and under undisturbed calls. */
  lemma StepReaches(c: Chain, s: System, step: Step)
    requires Reachable(c, s)
    ensures Reachable(c, Apply(c, s, step))
  {
    var steps :| Run(c, EMPTY, steps) == s;
    RunConcat(c, EMPTY, steps, [step]);
    assert [step][1..] == [];
    assert Run(c, s, [step]) == Run(c, Apply(c, s, step), []);
    hide Run;
  }

  lemma ProcessReaches(c: Chain, s: System, w: nat, id: Txid, ts: int)
    requires Reachable(c, s) && id in c.txs && w !in s.workers
    ensures Reachable(c, System(Process(s.ledger, c.txs[id], ts), s.workers))
  {
    hide Run;
    var steps :| Run(c, EMPTY, steps) == s;
    var more := ProcessIsRun(c, s, w, id, ts);
    RunConcat(c, EMPTY, steps, more);
  }

  lemma EmptyReached(c: Chain)
    ensures Reachable(c, EMPTY)
  {
    assert Run(c, EMPTY, []) == EMPTY;
  }

  /** `b` recorded, and nothing else. */
  function OnlyRecorded(b: MsgTx): Ledger {
    Ledger(map[], map[b.txid := TxInfo(b, 0, New)])
  }

  function Slow(b: MsgTx, wk: Worker): System {
    System(OnlyRecorded(b), map[0 := wk])
  }

  /** A worker passes over inputs that are not badge inputs. */
  lemma {:induction false} PlainInputs(c: Chain, b: MsgTx, i: nat)
    requires ChainTx(c, b) && i <= |b.ins| && forall j | 0 <= j < i :: !IsBadgeVin(b.ins[j])
    ensures Reachable(c, Slow(b, Parsing(b, 0, i, NO_VINS, FirstRead)))
  {
    hide Reachable;
    if i == 0 {
      EmptyReached(c);
      StepReaches(c, EMPTY, Record(b.txid, 0));
      StepReaches(c, System(OnlyRecorded(b), map[]), Start(0, b.txid, 0));
    } else {
      PlainInputs(c, b, i - 1);
      var s := Slow(b, Parsing(b, 0, i - 1, NO_VINS, FirstRead));
      StepReaches(c, s, Advance(0));
      assert Apply(c, s, Advance(0)).workers == map[0 := Parsing(b, 0, i, NO_VINS, FirstRead)];
    }
  }

  ghost function FirstBadge(tx: MsgTx, i: nat): (r: nat)
    requires exists j | i <= j < |tx.ins| :: IsBadgeVin(tx.ins[j])
    ensures i <= r < |tx.ins| && IsBadgeVin(tx.ins[r]) && forall j | i <= j < r :: !IsBadgeVin(tx.ins[j])
    decreases |tx.ins| - i
  {
    if IsBadgeVin(tx.ins[i]) then i else FirstBadge(tx, i + 1)
  }

  /** A worker that has found a parent of `b` unknown and has not yet written OPEN. */
  lemma SlowWorker(c: Chain, b: MsgTx)
    requires ChainTx(c, b) && HasBadgeInput(b)
    ensures Reachable(c, Slow(b, Finishing(b, Open)))
  {
    hide Reachable;
    var i := FirstBadge(b, 0);
    PlainInputs(c, b, i);
    var s := Slow(b, Parsing(b, 0, i, NO_VINS, FirstRead));
    StepReaches(c, s, Advance(0));
    assert Apply(c, s, Advance(0)).workers == map[0 := Parsing(b, 0, i, NO_VINS, StateRead)];
    s := Slow(b, Parsing(b, 0, i, NO_VINS, StateRead));
    StepReaches(c, s, Advance(0));
    assert Apply(c, s, Advance(0)).workers == map[0 := Finishing(b, Open)];
  }

  /** `s'` is a later state with the same workers and everything still closed. */
  ghost predicate Later(c: Chain, s: System, s': System) {
    Reachable(c, s') && s'.workers == s.workers && forall id | IsClosed(s.ledger, id) :: IsClosed(s'.ledger, id)
  }

  /** Other workers can close a closable transaction, ancestors first. */
  lemma {:induction false} CloseOne(c: Chain, s: System, id: Txid) returns (s': System)
    requires Reachable(c, s) && 1 !in s.workers && CanClose(c, id)
    ensures Later(c, s, s') && IsClosed(s'.ledger, id)
    decreases c.rank[id], |c.txs[id].ins| + 1
  {
    hide Reachable, Process, OutcomeOf, AddInfo, IsClosed;
    var tx := c.txs[id];
    var s1 := CloseParents(c, s, id, |tx.ins|);
    StepReaches(c, s1, Record(id, 0));
    var s2 := Apply(c, s1, Record(id, 0));
    RecordLater(s1.ledger, tx);
    ProcessReaches(c, s2, 1, id, 0);
    ProcessCloses(s2.ledger, tx, 0);
    s' := System(Process(s2.ledger, tx, 0), s2.workers);
  }

  lemma RecordLater(l: Ledger, tx: MsgTx)
    ensures var l' := l.(infos := AddInfo(l.infos, tx, 0));
            tx.txid in l'.infos && (forall id | IsClosed(l, id) :: IsClosed(l', id))
            && (BadgeParentsClosed(l, tx) ==> BadgeParentsClosed(l', tx))
  {
  }

  lemma {:induction false} CloseParents(c: Chain, s: System, id: Txid, n: nat) returns (s': System)
    requires Reachable(c, s) && 1 !in s.workers && CanClose(c, id) && n <= |c.txs[id].ins|
    ensures Later(c, s, s')
    ensures forall i | 0 <= i < n && IsBadgeVin(c.txs[id].ins[i]) :: IsClosed(s'.ledger, c.txs[id].ins[i].prev.txid)
    ensures n == |c.txs[id].ins| ==> BadgeParentsClosed(s'.ledger, c.txs[id])
    decreases c.rank[id], n
  {
    hide Reachable, IsClosed;
    s' := s;
    if n > 0 {
      s' := CloseParents(c, s, id, n - 1);
      if IsBadgeVin(c.txs[id].ins[n - 1]) {
        s' := CloseOne(c, s', c.txs[id].ins[n - 1].prev.txid);
      }
    }
  }

  lemma ClosableReopens(c: Chain, id: Txid) returns (s: System)
    requires CanClose(c, id) && HasBadgeInput(c.txs[id])
    ensures Reachable(c, s) && Reopens(c, s, Advance(0), id)
  {
    hide Reachable, Closable, HasBadgeInput;
    var b := c.txs[id];
    SlowWorker(c, b);
    s := CloseOne(c, Slow(b, Finishing(b, Open)), id);
  }

  /**
   * The exact condition: some run takes CLOSED back from a transaction if and only if it has a badge input
   * and all its badge ancestors are on the chain. For every other transaction CLOSED is final, or never comes.
   */
  lemma ReopenableExactly(c: Chain, id: Txid)
    ensures CanReopen(c, id) <==> CanClose(c, id) && HasBadgeInput(c.txs[id])
  {
    hide Reachable, Closable, HasBadgeInput, Reopens;
    if CanReopen(c, id) {
      var s, step :| Reachable(c, s) && Reopens(c, s, step, id);
      ReopenedIsRooted(c, s, step, id);
    }
    if CanClose(c, id) && HasBadgeInput(c.txs[id]) {
      var s := ClosableReopens(c, id);
    }
  }

  /** There are such transactions: a child of an issuance. */
  lemma ClosedIsNotPermanent() returns (c: Chain, s: System, step: Step, id: Txid)
    ensures Reachable(c, s) && Reopens(c, s, step, id)
  {
    hide Reachable, Reopens;
    var a := MsgTx("a", [], []);
    var b := MsgTx("b", [TxIn(OutPoint("a", 0), BADGE_FLAG)], []);
    c, step, id := RawChain(map["a" := a, "b" := b], map["a" := 0, "b" := 1]), Advance(0), "b";
    assert Closable(c, "a");
    assert IsBadgeVin(b.ins[0]);
    s := ClosableReopens(c, id);
  }
}
