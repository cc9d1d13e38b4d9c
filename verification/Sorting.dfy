/** SortMsgTx: the in-place topological sort that lets one pass of processing suffice. */
module Sorting {
  import opened Model

  ghost predicate Mentions(txs: seq<MsgTx>, id: Txid) {
    exists j | 0 <= j < |txs| :: txs[j].txid == id
  }

  /** `rank` orders each transaction of the batch after its parents in the batch. */
  ghost predicate Ranked(txs: seq<MsgTx>, rank: map<Txid, nat>) {
    && (forall tx | tx in txs :: tx.txid in rank)
    && (forall tx, vin | tx in txs && vin in tx.ins && Mentions(txs, vin.prev.txid) ::
          vin.prev.txid in rank && rank[vin.prev.txid] < rank[tx.txid])
  }

  ghost predicate Acyclic(txs: seq<MsgTx>) {
    exists rank :: Ranked(txs, rank)
  }

  /** Each parent that is in the batch appears before position `i`. */
  ghost predicate ParentsBefore(txs: seq<MsgTx>, i: nat)
    requires i < |txs|
  {
    forall vin | vin in txs[i].ins && Mentions(txs, vin.prev.txid) :: Mentions(txs[..i], vin.prev.txid)
  }

  ghost predicate Topological(txs: seq<MsgTx>) {
    forall i | 0 <= i < |txs| :: ParentsBefore(txs, i)
  }

  ghost predicate SameBatch(txs: seq<MsgTx>, txs': seq<MsgTx>) {
    multiset(txs) == multiset(txs')
  }

  lemma SameBatchMembers(txs: seq<MsgTx>, txs': seq<MsgTx>)
    requires SameBatch(txs, txs')
    ensures |txs| == |txs'|
    ensures forall tx :: tx in txs <==> tx in txs'
    ensures forall id :: Mentions(txs, id) <==> Mentions(txs', id)
  {
    assert |txs| == |multiset(txs)| == |multiset(txs')| == |txs'|;
    forall tx ensures tx in txs <==> tx in txs' {
      assert tx in txs <==> tx in multiset(txs);
      assert tx in txs' <==> tx in multiset(txs');
    }
    forall id ensures Mentions(txs, id) <==> Mentions(txs', id) {
      if Mentions(txs, id) {
        var j :| 0 <= j < |txs| && txs[j].txid == id;
        assert txs[j] in txs';
      }
      if Mentions(txs', id) {
        var j :| 0 <= j < |txs'| && txs'[j].txid == id;
        assert txs'[j] in txs;
      }
    }
  }

  /** The input waits for a parent that is in the batch and not yet placed. */
  predicate Waits(inResult: map<Txid, bool>, vin: TxIn) {
    vin.prev.txid in inResult && !inResult[vin.prev.txid]
  }

  ghost predicate Blocked(inResult: map<Txid, bool>, tx: MsgTx) {
    exists vin | vin in tx.ins :: Waits(inResult, vin)
  }

  /** `inResult` covers the batch and marks exactly the transactions of the sorted prefix. */
  ghost predicate Marks(txs: seq<MsgTx>, i: nat, inResult: map<Txid, bool>)
    requires i <= |txs|
  {
    && (forall id :: id in inResult <==> Mentions(txs, id))
    && (forall id | id in inResult :: inResult[id] <==> Mentions(txs[..i], id))
  }

  ghost predicate PrefixSorted(txs: seq<MsgTx>, i: nat)
    requires i <= |txs|
  {
    forall k | 0 <= k < i :: ParentsBefore(txs, k)
  }

  /** In a ranked batch with unplaced transactions, one of lowest rank is not blocked. */
  lemma {:induction false} SomeUnblocked(txs: seq<MsgTx>, i: nat, inResult: map<Txid, bool>, rank: map<Txid, nat>,
    j: nat) returns (k: nat)
    requires i <= j < |txs| && Ranked(txs, rank) && Marks(txs, i, inResult)
    ensures i <= k < |txs| && !Blocked(inResult, txs[k])
    decreases rank[txs[j].txid]
  {
    if Blocked(inResult, txs[j]) {
      var vin :| vin in txs[j].ins && Waits(inResult, vin);
      var n :| 0 <= n < |txs| && txs[n].txid == vin.prev.txid;
      assert forall m | 0 <= m < i :: txs[..i][m].txid != vin.prev.txid;
      k := SomeUnblocked(txs, i, inResult, rank, n);
    } else {
      k := j;
    }
  }

  lemma StuckMeansCyclic(txs: seq<MsgTx>, i: nat, inResult: map<Txid, bool>)
    requires i < |txs| && Marks(txs, i, inResult)
    requires forall j | i <= j < |txs| :: Blocked(inResult, txs[j])
    ensures !Acyclic(txs)
  {
    if Acyclic(txs) {
      var rank :| Ranked(txs, rank);
      var k := SomeUnblocked(txs, i, inResult, rank, i);
    }
  }

  function Swap(txs: seq<MsgTx>, i: nat, j: nat): seq<MsgTx>
    requires i < |txs| && j < |txs|
  {
    txs[i := txs[j]][j := txs[i]]
  }

  lemma SwapIsSameBatch(txs: seq<MsgTx>, i: nat, j: nat)
    requires i <= j < |txs|
    ensures SameBatch(txs, Swap(txs, i, j))
  {
  }

  /** Placing an unblocked transaction extends the sorted prefix. */
  lemma PlaceNext(txs: seq<MsgTx>, i: nat, j: nat, inResult: map<Txid, bool>)
    requires i <= j < |txs| && Marks(txs, i, inResult) && PrefixSorted(txs, i) && !Blocked(inResult, txs[j])
    ensures Marks(Swap(txs, i, j), i + 1, inResult[txs[j].txid := true])
    ensures PrefixSorted(Swap(txs, i, j), i + 1)
  {
    var txs' := Swap(txs, i, j);
    SwapIsSameBatch(txs, i, j);
    SameBatchMembers(txs, txs');
    assert txs'[..i] == txs[..i];
    assert txs'[..i + 1] == txs[..i] + [txs[j]];
    PlacedMarks(txs[..i], txs[j]);
    forall k | 0 <= k < i ensures ParentsBefore(txs', k) {
      assert ParentsBefore(txs, k);
      assert txs'[..k] == txs'[..i][..k] == txs[..i][..k] == txs[..k];
    }
    assert ParentsBefore(txs', i);
  }

  lemma PlacedMarks(prefix: seq<MsgTx>, tx: MsgTx)
    ensures forall id :: Mentions(prefix + [tx], id) <==> Mentions(prefix, id) || id == tx.txid
  {
    forall id ensures Mentions(prefix + [tx], id) <==> Mentions(prefix, id) || id == tx.txid {
      if Mentions(prefix, id) {
        var j :| 0 <= j < |prefix| && prefix[j].txid == id;
        assert (prefix + [tx])[j].txid == id;
      }
      assert (prefix + [tx])[|prefix|] == tx;
    }
  }

  /** The first position at which `id` appears. */
  ghost function FirstAt(txs: seq<MsgTx>, id: Txid): (j: nat)
    requires Mentions(txs, id)
    ensures j < |txs| && txs[j].txid == id && !Mentions(txs[..j], id)
  {
    if txs[0].txid == id then 0 else
    assert Mentions(txs[1..], id) by {
      var k :| 0 <= k < |txs| && txs[k].txid == id;
      assert txs[1..][k - 1].txid == id;
    }
    var j := 1 + FirstAt(txs[1..], id);
    assert txs[..j] == [txs[0]] + txs[1..][..j - 1];
    j
  }

  /** Equal txids are equal transactions. */
  ghost predicate Identified(txs: seq<MsgTx>) {
    forall tx, tx' | tx in txs && tx' in txs && tx.txid == tx'.txid :: tx == tx'
  }

  lemma FirstIsLeast(txs: seq<MsgTx>, id: Txid, j: nat)
    requires j < |txs| && txs[j].txid == id
    ensures Mentions(txs, id) && FirstAt(txs, id) <= j
  {
    var f := FirstAt(txs, id);
    assert forall m | 0 <= m < f :: txs[..f][m].txid != id;
  }

  lemma ParentFirst(txs: seq<MsgTx>, tx: MsgTx, vin: TxIn)
    requires Topological(txs) && Identified(txs) && tx in txs && vin in tx.ins && Mentions(txs, vin.prev.txid)
    ensures Mentions(txs, tx.txid) && FirstAt(txs, vin.prev.txid) < FirstAt(txs, tx.txid)
  {
    var i := FirstAt(txs, tx.txid);
    assert txs[i] == tx && ParentsBefore(txs, i);
    var j :| 0 <= j < i && txs[..i][j].txid == vin.prev.txid;
    FirstIsLeast(txs, vin.prev.txid, j);
  }

  /** A batch in topological order is acyclic: the first positions are a rank. */
  lemma TopologicalIsAcyclic(txs: seq<MsgTx>)
    requires Topological(txs) && Identified(txs)
    ensures Acyclic(txs)
  {
    var ids := set tx | tx in txs :: tx.txid;
    var rank: map<Txid, nat> := map id | id in ids && Mentions(txs, id) :: FirstAt(txs, id);
    forall tx | tx in txs ensures tx.txid in rank {
      var j :| 0 <= j < |txs| && txs[j] == tx;
      FirstIsLeast(txs, tx.txid, j);
    }
    forall tx, vin | tx in txs && vin in tx.ins && Mentions(txs, vin.prev.txid)
      ensures vin.prev.txid in rank && rank[vin.prev.txid] < rank[tx.txid]
    {
      ParentFirst(txs, tx, vin);
      assert txs[FirstAt(txs, vin.prev.txid)] in txs;
    }
    assert Ranked(txs, rank);
  }

  lemma AcyclicOfBatch(txs: seq<MsgTx>, txs': seq<MsgTx>)
    requires SameBatch(txs, txs') && Acyclic(txs)
    ensures Acyclic(txs')
  {
    SameBatchMembers(txs, txs');
    var rank :| Ranked(txs, rank);
    assert Ranked(txs', rank);
  }

  /** Some input of `tx` waits for an unplaced parent. */
  method HasPre(tx: MsgTx, inResult: map<Txid, bool>) returns (hasPre: bool)
    ensures hasPre <==> Blocked(inResult, tx)
  {
    hasPre := false;
    for m := 0 to |tx.ins|
      invariant !hasPre && forall n | 0 <= n < m :: !Waits(inResult, tx.ins[n])
    {
      if tx.ins[m].prev.txid in inResult {
        if !inResult[tx.ins[m].prev.txid] {
          hasPre := true;
          assert tx.ins[m] in tx.ins && Waits(inResult, tx.ins[m]);
          break;
        }
      }
    }
  }

  /** The middle loop: the first transaction from `i` on that waits for nothing. */
  method NextUnblocked(msgTxs: array<MsgTx>, i: nat, inResult: map<Txid, bool>) returns (j: nat)
    requires i <= msgTxs.Length
    ensures i <= j <= msgTxs.Length && (forall k | i <= k < j :: Blocked(inResult, msgTxs[k]))
    ensures j < msgTxs.Length ==> !Blocked(inResult, msgTxs[j])
  {
    hide Blocked;
    j := i;
    while j < msgTxs.Length
      invariant i <= j <= msgTxs.Length && forall k | i <= k < j :: Blocked(inResult, msgTxs[k])
    {
      var hasPre := HasPre(msgTxs[j], inResult);
      if !hasPre {
        return;
      }
      j := j + 1;
    }
  }

  /** The first loop: every transaction of the batch, none placed. */
  method Unplaced(msgTxs: array<MsgTx>) returns (inResult: map<Txid, bool>)
    ensures Marks(msgTxs[..], 0, inResult)
  {
    inResult := map[];
    for n := 0 to msgTxs.Length
      invariant forall id :: id in inResult <==> Mentions(msgTxs[..n], id)
      invariant forall id | id in inResult :: !inResult[id]
    {
      assert msgTxs[..n + 1] == msgTxs[..n] + [msgTxs[n]];
      PlacedMarks(msgTxs[..n], msgTxs[n]);
      inResult := inResult[msgTxs[n].txid := false];
    }
    assert msgTxs[..msgTxs.Length] == msgTxs[..];
  }

  /** Either the first `i` are sorted, or some round placed nothing and the batch is cyclic. */
  ghost predicate Sorted(batch: seq<MsgTx>, txs: seq<MsgTx>, i: nat, inResult: map<Txid, bool>)
    requires i <= |txs|
  {
    SameBatch(batch, txs) && ((Marks(txs, i, inResult) && PrefixSorted(txs, i)) || !Acyclic(batch))
  }

  lemma SortPlaces(batch: seq<MsgTx>, txs: seq<MsgTx>, i: nat, j: nat, inResult: map<Txid, bool>)
    requires i <= j < |txs| && Sorted(batch, txs, i, inResult) && !Blocked(inResult, txs[j])
    ensures Sorted(batch, Swap(txs, i, j), i + 1, inResult[txs[j].txid := true])
  {
    hide Marks, PrefixSorted, Acyclic, Blocked, Swap;
    SwapIsSameBatch(txs, i, j);
    if Marks(txs, i, inResult) && PrefixSorted(txs, i) {
      PlaceNext(txs, i, j, inResult);
    }
  }

  lemma SortStuck(batch: seq<MsgTx>, txs: seq<MsgTx>, i: nat, inResult: map<Txid, bool>)
    requires i < |txs| && Sorted(batch, txs, i, inResult) && forall j | i <= j < |txs| :: Blocked(inResult, txs[j])
    ensures Sorted(batch, txs, i + 1, inResult)
  {
    hide PrefixSorted, Acyclic, Blocked;
    if Acyclic(batch) {
      AcyclicOfBatch(batch, txs);
      StuckMeansCyclic(txs, i, inResult);
    }
  }

  lemma SortEnds(batch: seq<MsgTx>, txs: seq<MsgTx>, inResult: map<Txid, bool>)
    requires Sorted(batch, txs, |txs|, inResult)
    ensures SameBatch(batch, txs)
    ensures Acyclic(batch) ==> Topological(txs)
    ensures Identified(batch) && Topological(txs) ==> Acyclic(batch)
  {
    hide Acyclic, ParentsBefore, Marks;
    if Identified(batch) && Topological(txs) {
      SortedIsAcyclic(batch, txs);
    }
  }

  /**
   * SortMsgTx always terminates with a permutation of its input, cyclic or not. The result is in
   * topological order exactly when the batch is acyclic.
   */
  method SortMsgTx(msgTxs: array<MsgTx>)
    modifies msgTxs
    ensures SameBatch(old(msgTxs[..]), msgTxs[..])
    ensures Acyclic(old(msgTxs[..])) ==> Topological(msgTxs[..])
    ensures Identified(old(msgTxs[..])) && Topological(msgTxs[..]) ==> Acyclic(old(msgTxs[..]))
  {
    ghost var batch := msgTxs[..];
    var inResult := Unplaced(msgTxs);
    assert Sorted(batch, msgTxs[..], 0, inResult);
    hide Sorted, Blocked, Acyclic, Topological, Identified, Swap, SameBatch;
    for i := 0 to msgTxs.Length
      invariant Sorted(batch, msgTxs[..], i, inResult)
    {
      ghost var before := msgTxs[..];
      var j := NextUnblocked(msgTxs, i, inResult);
      if j < msgTxs.Length {
        SortPlaces(batch, before, i, j, inResult);
        inResult := inResult[msgTxs[j].txid := true];
        SwapAt(msgTxs, i, j);
      } else {
        SortStuck(batch, before, i, inResult);
      }
    }
    SortEnds(batch, msgTxs[..], inResult);
  }

  method SwapAt(msgTxs: array<MsgTx>, i: nat, j: nat)
    requires i < msgTxs.Length && j < msgTxs.Length
    modifies msgTxs
    ensures msgTxs[..] == Swap(old(msgTxs[..]), i, j)
  {
    msgTxs[i], msgTxs[j] := msgTxs[j], msgTxs[i];
  }

  lemma SortedIsAcyclic(txs: seq<MsgTx>, txs': seq<MsgTx>)
    requires SameBatch(txs, txs') && Identified(txs) && Topological(txs')
    ensures Acyclic(txs)
  {
    SameBatchMembers(txs, txs');
    TopologicalIsAcyclic(txs');
    AcyclicOfBatch(txs', txs);
  }
}
