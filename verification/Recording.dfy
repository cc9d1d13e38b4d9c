/**
 * The segmented table behind the ledger's records: each operation on rows is the operation on records it stands for.
 */
module Recording {
  import opened Model
  import opened Chains
  import opened Partitions
  import S = Storage

  /** The raw texts of the chain's transactions. */
  ghost function Texts(c: Chain, cfg: Config): map<Txid, string> {
    map t | t in c.txs :: cfg.text(c.txs[t])
  }

  function StateOf(state: int): TxState {
    if state == 3 then Closed else if state == 2 then Open else New
  }

  function CommitKey(t: Txid): (Txid, int) {
    (t, S.TX_INFO_INDEX)
  }

  /** What the table records: the transactions with a commit row, at its height and state. */
  ghost function InfosIn(c: Chain, rows: S.Rows): Infos {
    map t | t in c.txs && CommitKey(t) in rows ::
      TxInfo(c.txs[t], rows[CommitKey(t)].height, StateOf(rows[CommitKey(t)].state))
  }

  lemma {:induction false} PiecesLeaveCommits(rows: S.Rows, txid: Txid, pieces: seq<string>, n: nat, t: Txid)
    requires n <= |pieces|
    ensures var rows' := S.InsertPieces(rows, txid, pieces, n);
            && (CommitKey(t) in rows' <==> CommitKey(t) in rows)
            && (CommitKey(t) in rows ==> rows'[CommitKey(t)] == rows[CommitKey(t)])
  {
    if n > 0 {
      PiecesLeaveCommits(rows, txid, pieces, n - 1, t);
    }
  }

  lemma SegmentsLeaveInfos(c: Chain, rows: S.Rows, id: Txid, pieces: seq<string>, n: nat)
    requires n <= |pieces|
    ensures InfosIn(c, S.InsertPieces(rows, id, pieces, n)) == InfosIn(c, rows)
  {
    hide S.InsertPieces;
    var mid := S.InsertPieces(rows, id, pieces, n);
    forall t | t in c.txs
      ensures (CommitKey(t) in mid <==> CommitKey(t) in rows)
              && (CommitKey(t) in rows ==> mid[CommitKey(t)] == rows[CommitKey(t)])
    {
      PiecesLeaveCommits(rows, id, pieces, n, t);
    }
  }

  lemma CommitAt(c: Chain, rows: S.Rows, id: Txid, commit: S.RawTxInfo, t: Txid)
    requires id in c.txs && StateOf(commit.state) == New
    ensures var infos', infos := InfosIn(c, S.Insert(rows, CommitKey(id), commit)),
            AddInfo(InfosIn(c, rows), c.txs[id], commit.height);
            (t in infos' <==> t in infos) && (t in infos' ==> infos'[t] == infos[t])
  {
    if t != id {
      assert CommitKey(t) != CommitKey(id);
    }
  }

  lemma CommitIsAddInfo(c: Chain, rows: S.Rows, id: Txid, commit: S.RawTxInfo)
    requires id in c.txs && StateOf(commit.state) == New
    ensures InfosIn(c, S.Insert(rows, CommitKey(id), commit)) == AddInfo(InfosIn(c, rows), c.txs[id], commit.height)
  {
    hide InfosIn, AddInfo, S.Insert, StateOf;
    var infos', infos := InfosIn(c, S.Insert(rows, CommitKey(id), commit)),
      AddInfo(InfosIn(c, rows), c.txs[id], commit.height);
    forall t ensures (t in infos' <==> t in infos) && (t in infos' ==> infos'[t] == infos[t]) {
      CommitAt(c, rows, id, commit, t);
    }
  }

  /** AddMsgTxInfo is AddInfo once its commit row is written, and nothing before. */
  lemma AddIsAddInfo(c: Chain, cfg: Config, rows: S.Rows, id: Txid, height: int, blockHash: string, timestamp: int,
    writes: nat)
    requires id in c.txs
    ensures var rows' := S.Apply(Texts(c, cfg), rows, S.Add(id, height, blockHash, timestamp, writes));
            InfosIn(c, rows') ==
            if writes > |S.Pieces(cfg.text(c.txs[id]))| then AddInfo(InfosIn(c, rows), c.txs[id], height)
              else InfosIn(c, rows)
  {
    hide S.Pieces, S.InsertPieces, S.Insert, InfosIn, AddInfo;
    var pieces := S.Pieces(cfg.text(c.txs[id]));
    var n := if writes <= |pieces| then writes else |pieces|;
    SegmentsLeaveInfos(c, rows, id, pieces, n);
    if writes > |pieces| {
      CommitIsAddInfo(c, S.InsertPieces(rows, id, pieces, n), id, S.CommitRow(height, blockHash, timestamp));
    }
  }

  /** SetMsgTxState on the commit row is SetState. */
  lemma StateIsSetState(c: Chain, cfg: Config, rows: S.Rows, id: Txid, state: int)
    requires id in c.txs
    ensures InfosIn(c, S.Apply(Texts(c, cfg), rows, S.SetMsgTxState(id, state))) ==
            SetState(InfosIn(c, rows), id, StateOf(state))
  {
  }

  /**
   * In every run, a recorded transaction is read back as itself if and only if it fits, and otherwise the read
   * never ends; a transaction that is not recorded is never read.
   */
  lemma RecordedIsRead(c: Chain, cfg: Config, ops: seq<S.Op>, id: Txid)
    requires id in c.txs
    ensures var rows := S.Run(Texts(c, cfg), ops);
            if id in InfosIn(c, rows)
            then && (S.ReadOf(rows, id) == S.Read(cfg.text(c.txs[id]), rows[CommitKey(id)]) <==> Fits(cfg, c.txs[id]))
                 && (S.ReadOf(rows, id) == S.StillReading <==> !Fits(cfg, c.txs[id]))
            else !S.ReadOf(rows, id).Read?
  {
    hide S.ReadOf, S.Run;
    S.RoundTrip(Texts(c, cfg), ops, id);
  }
}
