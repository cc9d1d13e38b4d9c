/** Raw transactions stored in segments, with the index -1 row as commit record. */
module Storage {
  import opened Model
  import opened Orders

  const MAX_SEGMENT_SIZE := 131070
  const TX_INFO_INDEX := -1
  const TX_STATE_NEW := 1
  const PAGE_LIMIT := 128

  /** The longest text a read returns from: 62 segments and the commit row are fewer than 64 rows. */
  const READABLE_LENGTH := 62 * MAX_SEGMENT_SIZE

  datatype RawTxInfo = RawTxInfo(data: string, height: int, blockHash: string, timestamp: int, state: int)

  /** The raw_tx_info table under its unique index (txid, index). */
  type Rows = map<(Txid, int), RawTxInfo>

  // ----- SplitString and strings.Join

  function Segments(s: string, l: nat): seq<string>
    requires l > 0
    decreases |s|
  {
    if |s| <= l then (if s == [] then [] else [s]) else [s[..l]] + Segments(s[l..], l)
  }

  function Join(parts: seq<string>): string {
    if parts == [] then [] else parts[0] + Join(parts[1..])
  }

  method SplitString(s: string, l: nat) returns (result: seq<string>)
    requires l > 0
    ensures result == Segments(s, l)
  {
    result := [];
    var resultLen := 0;
    assert s[0..] == s;
    while resultLen + l < |s|
      invariant resultLen <= |s|
      invariant result + Segments(s[resultLen..], l) == Segments(s, l)
      decreases |s| - resultLen
    {
      var subs := s[resultLen..resultLen + l];
      assert s[resultLen..][..l] == subs && s[resultLen..][l..] == s[resultLen + l..];
      assert result + ([subs] + Segments(s[resultLen + l..], l)) == result + [subs] + Segments(s[resultLen + l..], l);
      result := result + [subs];
      resultLen := resultLen + l;
    }
    if resultLen != |s| {
      result := result + [s[resultLen..]];
    }
  }

  lemma {:induction false} JoinSegments(s: string, l: nat)
    requires l > 0
    ensures Join(Segments(s, l)) == s
    decreases |s|
  {
    if |s| > l {
      JoinSegments(s[l..], l);
      assert Segments(s, l)[1..] == Segments(s[l..], l);
      assert s == s[..l] + s[l..];
    } else if s != [] {
      assert Segments(s, l)[1..] == [];
      assert s + [] == s;
    }
  }

  lemma {:induction false} SegmentCount(s: string, l: nat)
    requires l > 0
    ensures |Segments(s, l)| * l < |s| + l && |s| <= |Segments(s, l)| * l
    decreases |s|
  {
    if |s| > l {
      SegmentCount(s[l..], l);
      var n := |Segments(s[l..], l)|;
      assert (n + 1) * l == n * l + l;
    }
  }

  function Pieces(raw: string): seq<string> {
    Segments(raw, MAX_SEGMENT_SIZE)
  }

  // ----- AddMsgTxInfo

  /** Db.Insert with duplicates ignored. */
  function Insert(rows: Rows, key: (Txid, int), row: RawTxInfo): Rows {
    if key in rows then rows else rows[key := row]
  }

  function SegmentRow(data: string): RawTxInfo {
    RawTxInfo(data, 0, "", 0, 0)
  }

  function CommitRow(height: int, blockHash: string, timestamp: int): RawTxInfo {
    RawTxInfo("", height, blockHash, timestamp, TX_STATE_NEW)
  }

  /** The first `n` segments inserted. */
  function InsertPieces(rows: Rows, txid: Txid, pieces: seq<string>, n: nat): Rows
    requires n <= |pieces|
  {
    if n == 0 then rows else Insert(InsertPieces(rows, txid, pieces, n - 1), (txid, n - 1), SegmentRow(pieces[n - 1]))
  }

  /** AddMsgTxInfo when the database stops accepting writes after `writes` of them. */
  function Added(rows: Rows, txid: Txid, raw: string, commit: RawTxInfo, writes: nat): Rows {
    var pieces := Pieces(raw);
    if writes <= |pieces| then InsertPieces(rows, txid, pieces, writes)
    else Insert(InsertPieces(rows, txid, pieces, |pieces|), (txid, TX_INFO_INDEX), commit)
  }

  /** Inserting segments adds exactly the missing ones, and no commit row. */
  lemma {:induction false} PiecesInserted(rows: Rows, txid: Txid, pieces: seq<string>, n: nat)
    requires n <= |pieces|
    ensures var rows' := InsertPieces(rows, txid, pieces, n);
            && ((txid, -1) in rows' <==> (txid, -1) in rows)
            && (forall i | 0 <= i < n :: (txid, i) in rows')
            && (forall i | 0 <= i < n && (txid, i) !in rows :: rows'[(txid, i)].data == pieces[i])
            && (forall i | n <= i && (txid, i) !in rows :: (txid, i) !in rows')
  {
    if n > 0 {
      PiecesInserted(rows, txid, pieces, n - 1);
      var mid := InsertPieces(rows, txid, pieces, n - 1);
      assert InsertPieces(rows, txid, pieces, n) == Insert(mid, (txid, n - 1), SegmentRow(pieces[n - 1]));
    }
  }

  datatype ReadResult = NotFound | StillReading | Read(raw: string, info: RawTxInfo)

  /** The indexes stored for a transaction. */
  function IndexesOf(rows: Rows, txid: Txid): set<int> {
    set k | k in rows && k.0 == txid :: k.1
  }

  /** The data of the segment rows among `indexes`, joined in that order. */
  function JoinData(rows: Rows, txid: Txid, indexes: seq<int>): string
    requires forall i | i in indexes :: (txid, i) in rows
  {
    if indexes == [] then []
    else
      (if indexes[0] == TX_INFO_INDEX then [] else rows[(txid, indexes[0])].data) + JoinData(rows, txid, indexes[1..])
  }

  class TxInfoRepository {
    var rows: Rows

    constructor ()
      ensures rows == map[]
    {
      rows := map[];
    }

    /** AddMsgTxInfo; `writes` bounds how many inserts succeed before the database fails. */
    method AddMsgTxInfo(txid: Txid, rawTx: string, height: int, blockHash: string, timestamp: int, writes: nat)
      returns (ok: bool)
      modifies this
      ensures rows == Added(old(rows), txid, rawTx, CommitRow(height, blockHash, timestamp), writes)
      ensures ok == (writes > |Pieces(rawTx)|)
      ensures ok && (txid, -1) !in old(rows) ==>
                (txid, -1) in rows && rows[(txid, -1)] == RawTxInfo("", height, blockHash, timestamp, 1)
      ensures forall i | 0 <= i < |Pieces(rawTx)| && i < writes && (txid, i) !in old(rows) ::
                (txid, i) in rows && rows[(txid, i)].data == Pieces(rawTx)[i]
    {
      var pieces := SplitString(rawTx, MAX_SEGMENT_SIZE);
      for index := 0 to |pieces|
        invariant index <= writes && rows == InsertPieces(old(rows), txid, pieces, index)
      {
        if index == writes {
          PiecesInserted(old(rows), txid, pieces, index);
          return false;
        }
        rows := Insert(rows, (txid, index), SegmentRow(pieces[index]));
      }
      PiecesInserted(old(rows), txid, pieces, |pieces|);
      if writes == |pieces| {
        return false;
      }
      rows := Insert(rows, (txid, TX_INFO_INDEX), CommitRow(height, blockHash, timestamp));
      ok := true;
    }

    /** Db.GetMany: the transaction's rows in index order, at most PAGE_LIMIT of them. */
    method GetPage(txid: Txid) returns (page: seq<int>)
      ensures page == PageOf(rows, txid)
    {
      IntLessTotal();
      var indexes := SortedList(IndexesOf(rows, txid), IntLess);
      page := if |indexes| <= PAGE_LIMIT then indexes else indexes[..PAGE_LIMIT];
    }

    /** One round of the read loop: its data, and whether the commit row was among the rows. */
    method ReadPage(txid: Txid, page: seq<int>) returns (raw: string, found: bool)
      requires forall i | i in page :: (txid, i) in rows
      ensures raw == JoinData(rows, txid, page) && found == (TX_INFO_INDEX in page)
    {
      raw, found := [], false;
      for n := 0 to |page|
        invariant found == (TX_INFO_INDEX in page[..n])
        invariant (forall i | i in page[..n] :: (txid, i) in rows) && raw == JoinData(rows, txid, page[..n])
      {
        assert page[..n + 1] == page[..n] + [page[n]];
        JoinDataNext(rows, txid, page[..n], page[n]);
        if page[n] == TX_INFO_INDEX {
          found := true;
        } else {
          raw := raw + rows[(txid, page[n])].data;
        }
      }
      assert page[..|page|] == page;
    }

    /**
     * GetMsgTxInfo, observed for `fuel` rounds of its read loop. The loop never advances its offset, so
     * from 64 rows on it reads the same page again for ever.
     */
    method GetMsgTxInfo(txid: Txid, fuel: nat) returns (r: ReadResult)
      requires fuel > 0
      ensures r == ReadOf(rows, txid)
    {
      var parts, completed := [], false;
      PageKnown(rows, txid);
      hide PageOf, JoinData, IndexesOf;
      for round := 0 to fuel
        invariant round > 0 ==> |IndexesOf(rows, txid)| >= PAGE_LIMIT / 2
        invariant round == 0 ==> parts == [] && !completed
      {
        var page := GetPage(txid);
        var raw, found := ReadPage(txid, page);
        parts, completed := parts + raw, completed || found;
        if |page| < PAGE_LIMIT / 2 {
          if !completed {
            return NotFound;
          }
          return Read(parts, rows[(txid, TX_INFO_INDEX)]);
        }
      }
      r := StillReading;
    }
  }

  ghost function PageOf(rows: Rows, txid: Txid): seq<int> {
    IntLessTotal();
    var indexes := Listed(IndexesOf(rows, txid), IntLess);
    if |indexes| <= PAGE_LIMIT then indexes else indexes[..PAGE_LIMIT]
  }

  lemma PageKnown(rows: Rows, txid: Txid)
    ensures forall i | i in PageOf(rows, txid) :: (txid, i) in rows
    ensures |PageOf(rows, txid)| < PAGE_LIMIT / 2 <==> |IndexesOf(rows, txid)| < PAGE_LIMIT / 2
    ensures |IndexesOf(rows, txid)| < PAGE_LIMIT / 2 ==>
              (TX_INFO_INDEX in PageOf(rows, txid) <==> (txid, TX_INFO_INDEX) in rows)
  {
    hide Listed, StrictTotal;
    IntLessTotal();
    var xs := IndexesOf(rows, txid);
    var indexes := Listed(xs, IntLess);
    EnumerationLength(indexes, xs);
    hide Ascending;
    assert forall i | i in PageOf(rows, txid) :: i in indexes && i in xs;
    assert TX_INFO_INDEX in xs <==> (txid, TX_INFO_INDEX) in rows;
  }

  /** What a read of `rows` yields: a result, or nothing ever once there are 64 rows. */
  ghost function ReadOf(rows: Rows, txid: Txid): ReadResult {
    PageKnown(rows, txid);
    if |IndexesOf(rows, txid)| >= PAGE_LIMIT / 2 then StillReading
    else if (txid, TX_INFO_INDEX) !in rows then NotFound
    else Read(JoinData(rows, txid, PageOf(rows, txid)), rows[(txid, TX_INFO_INDEX)])
  }

  lemma {:induction false} JoinDataNext(rows: Rows, txid: Txid, indexes: seq<int>, i: int)
    requires forall k | k in indexes + [i] :: (txid, k) in rows
    ensures forall k | k in indexes :: (txid, k) in rows
    ensures JoinData(rows, txid, indexes + [i]) ==
            JoinData(rows, txid, indexes) + if i == TX_INFO_INDEX then [] else rows[(txid, i)].data
  {
    assert forall k | k in indexes :: k in indexes + [i];
    if indexes == [] {
      assert indexes + [i] == [i] && [i][1..] == [];
    } else {
      var first := if indexes[0] == TX_INFO_INDEX then [] else rows[(txid, indexes[0])].data;
      assert (indexes + [i])[1..] == indexes[1..] + [i] && (indexes + [i])[0] == indexes[0];
      JoinDataNext(rows, txid, indexes[1..], i);
      var rest, last := JoinData(rows, txid, indexes[1..]), if i == TX_INFO_INDEX then [] else rows[(txid, i)].data;
      assert JoinData(rows, txid, indexes) == first + rest;
      assert JoinData(rows, txid, indexes + [i]) == first + (rest + last);
      assert first + (rest + last) == first + rest + last;
    }
  }

  // ----- runs of stops and retries

  /**
   * What may happen to the table: an AddMsgTxInfo that stops after `writes` inserts, or an update of the
   * index -1 row. Concurrent writers are covered: one more insert of a writer that has done n of them is
   * the retry with n + 1.
   */
  datatype Op =
    | Add(txid: Txid, height: int, blockHash: string, timestamp: int, writes: nat)
    | SetMsgTxState(txid: Txid, state: int)
    | SetMsgTxHeight(txid: Txid, height: int)

  /** `raws` gives the hexadecimal text of each transaction; the txid determines it. */
  function Apply(raws: map<Txid, string>, rows: Rows, op: Op): Rows {
    match op
    case Add(txid, height, blockHash, timestamp, writes) =>
      if txid in raws then Added(rows, txid, raws[txid], CommitRow(height, blockHash, timestamp), writes) else rows
    case SetMsgTxState(txid, state) =>
      var key := (txid, TX_INFO_INDEX);
      if key in rows then rows[key := rows[key].(state := state)] else rows
    case SetMsgTxHeight(txid, height) =>
      var key := (txid, TX_INFO_INDEX);
      if key in rows then rows[key := rows[key].(height := height)] else rows
  }

  function Run(raws: map<Txid, string>, ops: seq<Op>): Rows {
    if ops == [] then map[] else Apply(raws, Run(raws, ops[..|ops| - 1]), ops[|ops| - 1])
  }

  ghost predicate RowFits(raws: map<Txid, string>, k: (Txid, int), row: RawTxInfo) {
    && k.0 in raws && TX_INFO_INDEX <= k.1 < |Pieces(raws[k.0])|
    && (k.1 >= 0 ==> row.data == Pieces(raws[k.0])[k.1])
  }

  ghost predicate HasPieces(rows: Rows, txid: Txid, n: nat) {
    forall i | 0 <= i < n :: (txid, i) in rows
  }

  /** Segment rows hold their segment, and a commit row implies that all segments are stored. */
  ghost predicate RowsOk(raws: map<Txid, string>, rows: Rows) {
    && (forall k | k in rows :: RowFits(raws, k, rows[k]))
    && (forall k | k in rows && k.1 == TX_INFO_INDEX :: k.0 in raws && HasPieces(rows, k.0, |Pieces(raws[k.0])|))
  }

  ghost predicate Extends(rows: Rows, rows': Rows) {
    forall k | k in rows :: k in rows' && rows'[k] == rows[k]
  }

  lemma InsertKeeps(raws: map<Txid, string>, rows: Rows, k: (Txid, int), row: RawTxInfo)
    requires RowsOk(raws, rows) && RowFits(raws, k, row)
    requires k.1 == TX_INFO_INDEX ==> HasPieces(rows, k.0, |Pieces(raws[k.0])|)
    ensures RowsOk(raws, Insert(rows, k, row)) && Extends(rows, Insert(rows, k, row)) && k in Insert(rows, k, row)
  {
    hide Pieces;
  }

  lemma {:induction false} PiecesKeep(raws: map<Txid, string>, rows: Rows, txid: Txid, n: nat)
    requires RowsOk(raws, rows) && txid in raws && n <= |Pieces(raws[txid])|
    ensures var rows' := InsertPieces(rows, txid, Pieces(raws[txid]), n);
            RowsOk(raws, rows') && HasPieces(rows', txid, n) && Extends(rows, rows')
  {
    hide Pieces, RowsOk, Insert;
    if n > 0 {
      hide HasPieces, Extends;
      PiecesKeep(raws, rows, txid, n - 1);
      PieceNext(raws, rows, InsertPieces(rows, txid, Pieces(raws[txid]), n - 1), txid, n - 1);
    }
  }

  lemma PieceNext(raws: map<Txid, string>, rows: Rows, mid: Rows, txid: Txid, n: nat)
    requires txid in raws && n < |Pieces(raws[txid])|
    requires RowsOk(raws, mid) && HasPieces(mid, txid, n) && Extends(rows, mid)
    ensures var rows' := Insert(mid, (txid, n), SegmentRow(Pieces(raws[txid])[n]));
            RowsOk(raws, rows') && HasPieces(rows', txid, n + 1) && Extends(rows, rows')
  {
    hide Pieces, RowsOk, Insert;
    InsertKeeps(raws, mid, (txid, n), SegmentRow(Pieces(raws[txid])[n]));
  }

  lemma AddedKeeps(raws: map<Txid, string>, rows: Rows, txid: Txid, commit: RawTxInfo, writes: nat)
    requires RowsOk(raws, rows) && txid in raws
    ensures var rows' := Added(rows, txid, raws[txid], commit, writes);
            RowsOk(raws, rows') && Extends(rows, rows')
  {
    hide Segments, RowsOk;
    var n := |Pieces(raws[txid])|;
    PiecesKeep(raws, rows, txid, if writes <= n then writes else n);
    if writes > n {
      InsertKeeps(raws, InsertPieces(rows, txid, Pieces(raws[txid]), n), (txid, TX_INFO_INDEX), commit);
    }
  }

  lemma ApplyKeeps(raws: map<Txid, string>, rows: Rows, op: Op)
    requires RowsOk(raws, rows)
    ensures RowsOk(raws, Apply(raws, rows, op))
  {
    hide Segments;
    if op.Add? && op.txid in raws {
      AddedKeeps(raws, rows, op.txid, CommitRow(op.height, op.blockHash, op.timestamp), op.writes);
    }
  }

  lemma {:induction false} RunKeeps(raws: map<Txid, string>, ops: seq<Op>)
    ensures RowsOk(raws, Run(raws, ops))
  {
    if ops != [] {
      RunKeeps(raws, ops[..|ops| - 1]);
      ApplyKeeps(raws, Run(raws, ops[..|ops| - 1]), ops[|ops| - 1]);
    }
  }

  /** Re-adding a committed transaction changes none of its rows: not its state, not its height. */
  lemma ReAddKeepsCommit(raws: map<Txid, string>, ops: seq<Op>, op: Op, k: (Txid, int))
    requires op.Add? && k in Run(raws, ops)
    ensures k in Apply(raws, Run(raws, ops), op) && Apply(raws, Run(raws, ops), op)[k] == Run(raws, ops)[k]
  {
    hide Segments;
    RunKeeps(raws, ops);
    if op.txid in raws {
      AddedKeeps(raws, Run(raws, ops), op.txid, CommitRow(op.height, op.blockHash, op.timestamp), op.writes);
    }
  }

  // ----- the round trip

  /** The indexes of a committed transaction of `n` segments, in order. */
  function UpTo(n: nat): seq<int> {
    seq(n + 1, i => i - 1)
  }

  lemma UpToMembers(n: nat)
    ensures Ascending(UpTo(n), IntLess) && forall i :: i in UpTo(n) <==> TX_INFO_INDEX <= i < n
  {
    forall i ensures i in UpTo(n) <==> TX_INFO_INDEX <= i < n {
      if TX_INFO_INDEX <= i < n {
        assert UpTo(n)[i + 1] == i;
      }
    }
  }

  lemma CommittedIndexes(raws: map<Txid, string>, rows: Rows, txid: Txid)
    requires RowsOk(raws, rows) && (txid, TX_INFO_INDEX) in rows
    ensures var n := |Pieces(raws[txid])|;
            && |IndexesOf(rows, txid)| == n + 1
            && (n + 1 <= PAGE_LIMIT ==> PageOf(rows, txid) == UpTo(n))
  {
    hide Listed, StrictTotal, Pieces, Ascending;
    IntLessTotal();
    var n, xs := |Pieces(raws[txid])|, IndexesOf(rows, txid);
    UpToMembers(n);
    forall i ensures i in UpTo(n) <==> i in xs {
      assert HasPieces(rows, txid, n);
      var k := (txid, i);
      if k in rows {
        assert k.0 == txid && k.1 == i && RowFits(raws, k, rows[k]);
      }
      assert i in xs <==> k in rows;
    }
    EnumerationLength(UpTo(n), xs);
    AscendingUnique(UpTo(n), Listed(xs, IntLess), IntLess);
  }

  lemma {:induction false} JoinDataFrom(rows: Rows, txid: Txid, pieces: seq<string>, indexes: seq<int>, from: nat)
    requires from <= |pieces| && |indexes| == |pieces| - from
    requires forall i | 0 <= i < |indexes| :: indexes[i] == from + i
    requires forall i | 0 <= i < |pieces| :: (txid, i) in rows && rows[(txid, i)].data == pieces[i]
    ensures JoinData(rows, txid, indexes) == Join(pieces[from..])
    decreases |indexes|
  {
    if indexes != [] {
      JoinDataFrom(rows, txid, pieces, indexes[1..], from + 1);
      assert pieces[from..][1..] == pieces[from + 1..];
    }
  }

  lemma CommittedData(raws: map<Txid, string>, rows: Rows, txid: Txid)
    requires RowsOk(raws, rows) && (txid, TX_INFO_INDEX) in rows
    ensures var n := |Pieces(raws[txid])|;
            (forall i | i in UpTo(n) :: (txid, i) in rows) && JoinData(rows, txid, UpTo(n)) == raws[txid]
  {
    hide Segments;
    var pieces := Pieces(raws[txid]);
    UpToMembers(|pieces|);
    assert HasPieces(rows, txid, |pieces|);
    forall i | 0 <= i < |pieces| ensures rows[(txid, i)].data == pieces[i] {
      assert RowFits(raws, (txid, i), rows[(txid, i)]);
    }
    var rest := UpTo(|pieces|)[1..];
    JoinDataFrom(rows, txid, pieces, rest, 0);
    JoinSegments(raws[txid], MAX_SEGMENT_SIZE);
    assert pieces[0..] == pieces;
    assert [] + JoinData(rows, txid, rest) == JoinData(rows, txid, rest);
  }

  /** The bound in characters, and the size of a segment. */
  lemma ReadableIs()
    ensures READABLE_LENGTH == 62 * 131070 && MAX_SEGMENT_SIZE == 131070
  {
  }

  lemma ReadableCount(raw: string)
    ensures |Pieces(raw)| <= 62 <==> |raw| <= READABLE_LENGTH
  {
    hide Segments;
    SegmentCount(raw, MAX_SEGMENT_SIZE);
  }

  lemma CommittedRead(raws: map<Txid, string>, rows: Rows, txid: Txid)
    requires RowsOk(raws, rows) && (txid, TX_INFO_INDEX) in rows
    ensures txid in raws
    ensures ReadOf(rows, txid) ==
            if |raws[txid]| <= READABLE_LENGTH then Read(raws[txid], rows[(txid, TX_INFO_INDEX)]) else StillReading
  {
    CommittedIndexes(raws, rows, txid);
    CommittedData(raws, rows, txid);
    ReadableCount(raws[txid]);
    hide Pieces, RowsOk, PageOf, IndexesOf, JoinData, UpTo;
  }

  lemma UncommittedRead(rows: Rows, txid: Txid)
    requires (txid, TX_INFO_INDEX) !in rows
    ensures !ReadOf(rows, txid).Read?
  {
    hide PageOf, IndexesOf, JoinData;
  }

  /**
   * Under any stops and retries, a transaction is found only if its commit row is stored. Then all its
   * segments are, and the read rebuilds exactly the original text; but only up to 62 segments: with more,
   * the read never ends.
   */
  lemma RoundTrip(raws: map<Txid, string>, ops: seq<Op>, txid: Txid)
    ensures var rows := Run(raws, ops);
            (txid, TX_INFO_INDEX) in rows ==>
              && txid in raws
              && (ReadOf(rows, txid) == Read(raws[txid], rows[(txid, TX_INFO_INDEX)]) <==>
                |raws[txid]| <= READABLE_LENGTH)
              && (ReadOf(rows, txid) == StillReading <==> |raws[txid]| > READABLE_LENGTH)
    ensures (txid, TX_INFO_INDEX) !in Run(raws, ops) ==> !ReadOf(Run(raws, ops), txid).Read?
  {
    hide Run, RowsOk, ReadOf;
    var rows := Run(raws, ops);
    RunKeeps(raws, ops);
    if (txid, TX_INFO_INDEX) in rows {
      CommittedRead(raws, rows, txid);
    } else {
      UncommittedRead(rows, txid);
    }
  }

  /** One character too many: a text of 62 full segments and one more character is stored and never read back. */
  lemma LongTextIsNeverRead() returns (raws: map<Txid, string>, ops: seq<Op>, txid: Txid)
    ensures txid in raws && |raws[txid]| == READABLE_LENGTH + 1
    ensures (txid, TX_INFO_INDEX) in Run(raws, ops) && ReadOf(Run(raws, ops), txid) == StillReading
  {
    txid := "t";
    var raw: string := seq(READABLE_LENGTH + 1, i => '0');
    raws, ops := map[txid := raw], [Add(txid, 0, "", 0, 64)];
    SegmentCount(raw, MAX_SEGMENT_SIZE);
    hide Segments, ReadOf;
    assert ops[..0] == [] && Run(raws, ops) == Added(map[], txid, raw, CommitRow(0, "", 0), 64);
    RoundTrip(raws, ops, txid);
  }
}
