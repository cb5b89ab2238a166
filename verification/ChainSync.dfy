/** A store in step with the chain it has indexed, and what each step of the indexer does to that. */
module ChainSync {
  import opened Types
  import opened Store
  import opened Indexing
  import opened Replay
  import opened TxStore
  import opened Overlay
  import opened Indexer

  // ----- the steps, on the whole store

  function RollbackDb(db: Db, height: int, hash: Hash): Db
    requires UndoKey(height, hash) in db.undos
  {
    db.(rows := RollbackRows(db.rows, db.undos[UndoKey(height, hash)], height), undos := db.undos - {UndoKey(height, hash)})
  }

  function PruneDb(db: Db, before: int): Db {
    db.(undos := map k | k in db.undos && k.height >= before :: db.undos[k])
  }

  /** Blocks are undone from the tip down until n are left; a missing undo record stops the rollback. */
  function RolledBack(db: Db, chain: seq<Entry>, start: int, n: nat): Option<Db>
    decreases |chain|
  {
    if |chain| <= n then Some(db) else
    var last := |chain| - 1;
    var k := UndoKey(start + last, chain[last].block.header.hash);
    if k !in db.undos then None else RolledBack(RollbackDb(db, k.height, k.blockHash), chain[..last], start, n)
  }

  /** Undoing one block more. */
  lemma {:induction false} RolledBackMore(db: Db, chain: seq<Entry>, start: int, n: nat, d: Db)
    requires 0 < n <= |chain| && RolledBack(db, chain, start, n) == Some(d)
    requires UndoKey(start + n - 1, chain[n - 1].block.header.hash) in d.undos
    ensures RolledBack(db, chain, start, n - 1) == Some(RollbackDb(d, start + n - 1, chain[n - 1].block.header.hash))
    decreases |chain|
  {
    if n < |chain| {
      var last := |chain| - 1;
      var k := UndoKey(start + last, chain[last].block.header.hash);
      RolledBackMore(RollbackDb(db, k.height, k.blockHash), chain[..last], start, n, d);
    } else {
      assert RolledBack(RollbackDb(d, start + n - 1, chain[n - 1].block.header.hash), chain[..n - 1], start, n - 1) ==
             Some(RollbackDb(d, start + n - 1, chain[n - 1].block.header.hash));
    }
  }

  // ----- blocks on top, and the overlay

  /** The overlay after entries n up to below i of a chain were indexed. */
  function Overtaken(chain: seq<Entry>, start: int, n: nat, i: nat, ov: OverlayView): OverlayView
    requires i <= |chain|
    decreases i
  {
    if i <= n then ov else
    ConfirmBlock(Overtaken(chain, start, n, i - 1, ov), Rebuild(chain, start, i - 1), chain[i - 1].block.txs, |chain[i - 1].block.txs|)
  }

  /** What the overlay was after the first i entries does not depend on those above. */
  lemma {:induction false} OvertakenPrefix(chain: seq<Entry>, longer: seq<Entry>, start: int, n: nat, i: nat, ov: OverlayView)
    requires i <= |chain| && i <= |longer| && chain[..i] == longer[..i]
    ensures Overtaken(longer, start, n, i, ov) == Overtaken(chain, start, n, i, ov)
    decreases i
  {
    if i > n {
      OnePrefixLess(chain, longer, i);
      OvertakenPrefix(chain, longer, start, n, i - 1, ov);
      PrefixOnly(chain, longer, start, i - 1);
      OvertakenSame(chain, longer, start, n, i, ov, Overtaken(chain, start, n, i - 1, ov), Rebuild(chain, start, i - 1));
    }
  }

  lemma {:induction false} OnePrefixLess(chain: seq<Entry>, longer: seq<Entry>, i: nat)
    requires 0 < i <= |chain| && i <= |longer| && chain[..i] == longer[..i]
    ensures chain[..i - 1] == longer[..i - 1] && chain[i - 1] == longer[i - 1]
  {
    assert chain[..i - 1] == chain[..i][..i - 1] == longer[..i][..i - 1] == longer[..i - 1];
    assert chain[i - 1] == chain[..i][i - 1] == longer[..i][i - 1] == longer[i - 1];
  }

  lemma {:induction false} OvertakenSame(chain: seq<Entry>, longer: seq<Entry>, start: int, n: nat, i: nat, ov: OverlayView,
                                         before: OverlayView, rows: Rows)
    requires n < i <= |chain| && i <= |longer| && chain[i - 1] == longer[i - 1]
    requires Overtaken(chain, start, n, i - 1, ov) == before && Overtaken(longer, start, n, i - 1, ov) == before
    requires Rebuild(chain, start, i - 1) == rows && Rebuild(longer, start, i - 1) == rows
    ensures Overtaken(longer, start, n, i, ov) == Overtaken(chain, start, n, i, ov)
  {
    OvertakenStep(chain, start, n, i, ov, before, rows, chain[i - 1].block.txs);
    OvertakenStep(longer, start, n, i, ov, before, rows, chain[i - 1].block.txs);
  }

  lemma {:induction false} OvertakenStep(chain: seq<Entry>, start: int, n: nat, i: nat, ov: OverlayView, before: OverlayView, rows: Rows,
                                         txs: seq<Tx>)
    requires n < i <= |chain| && before == Overtaken(chain, start, n, i - 1, ov) && rows == Rebuild(chain, start, i - 1)
    requires txs == chain[i - 1].block.txs
    ensures Overtaken(chain, start, n, i, ov) == ConfirmBlock(before, rows, txs, |txs|)
  {
  }

  // ----- in step

  ghost predicate UndoKept(undos: map<UndoKey, UndoBlock>, chain: seq<Entry>, start: int, i: nat)
    requires i < |chain|
  {
    var k := UndoKey(start + i, chain[i].block.header.hash);
    k in undos && undos[k] == UndoAt(chain, start, i)
  }

  ghost predicate KeyOnChain(k: UndoKey, chain: seq<Entry>, start: int, low: int)
    requires start <= low
  {
    low <= k.height < start + |chain| && k.blockHash == chain[k.height - start].block.header.hash
  }

  /** Undo records are there for exactly the blocks from height `low` to the tip. */
  ghost predicate UndoSynced(undos: map<UndoKey, UndoBlock>, chain: seq<Entry>, start: int, low: int) {
    && start <= low <= start + |chain|
    && (forall k {:trigger k in undos} :: k in undos ==> KeyOnChain(k, chain, start, low))
    && (forall i {:trigger UndoKept(undos, chain, start, i)} :: low - start <= i < |chain| ==> UndoKept(undos, chain, start, i))
  }

  ghost predicate TxKept(db: Db, chain: seq<Entry>, start: int, i: nat, t: nat)
    requires i < |chain| && t < |chain[i].block.txs|
  {
    Stored(db, chain[i].block.txs, start + i, t)
  }

  /** Every transaction of the chain has its position, blob and offset rows, whatever else is left over. */
  ghost predicate TxSynced(db: Db, chain: seq<Entry>, start: int) {
    forall i, t {:trigger TxKept(db, chain, start, i, t)} ::
      0 <= i < |chain| && 0 <= t < |chain[i].block.txs| ==> TxKept(db, chain, start, i, t)
  }

  ghost predicate Synced(db: Db, chain: seq<Entry>, start: int, low: int) {
    && db.rows == Rebuild(chain, start, |chain|)
    && UniqueTxids(chain)
    && UndoSynced(db.undos, chain, start, low)
    && TxSynced(db, chain, start)
  }

  // ----- chains that grow and shrink at the end

  lemma {:induction false} UniqueMore(chain: seq<Entry>, e: Entry)
    requires UniqueTxids(chain) && Fresh(e.block.txs, ChainTxids(chain, |chain|))
    ensures UniqueTxids(chain + [e])
  {
    var longer := chain + [e];
    forall i | 0 <= i < |longer| ensures Fresh(longer[i].block.txs, ChainTxids(longer, i)) {
      PrefixOnly(chain, longer, 0, i);
      if i < |chain| {
        assert Fresh(chain[i].block.txs, ChainTxids(chain, i));
      }
    }
  }

  lemma {:induction false} UniqueLess(chain: seq<Entry>, n: nat)
    requires UniqueTxids(chain) && n <= |chain|
    ensures UniqueTxids(chain[..n])
  {
    var shorter := chain[..n];
    forall i | 0 <= i < |shorter| ensures Fresh(shorter[i].block.txs, ChainTxids(shorter, i)) {
      assert chain[..i] == shorter[..i];
      PrefixOnly(chain, shorter, 0, i);
      assert Fresh(chain[i].block.txs, ChainTxids(chain, i));
    }
  }

  lemma {:induction false} OrderedMore(chain: seq<Entry>, start: int, e: Entry)
    requires Ordered(chain, start) && ValidOrder(Rebuild(chain, start, |chain|), e.block.txs, e.order)
    ensures Ordered(chain + [e], start)
  {
    var longer := chain + [e];
    forall i | 0 <= i < |longer| ensures NumberedAt(longer, start, i) {
      assert chain[..i] == longer[..i];
      PrefixOnly(chain, longer, start, i);
      assert i < |chain| ==> NumberedAt(chain, start, i);
    }
  }

  lemma {:induction false} OrderedLess(chain: seq<Entry>, start: int, n: nat)
    requires Ordered(chain, start) && n <= |chain|
    ensures Ordered(chain[..n], start)
  {
    var shorter := chain[..n];
    forall i | 0 <= i < n ensures NumberedAt(shorter, start, i) {
      assert chain[..i] == shorter[..i];
      PrefixOnly(chain, shorter, start, i);
      assert NumberedAt(chain, start, i);
    }
  }

  lemma {:induction false} RebuildMore(chain: seq<Entry>, e: Entry, start: int)
    ensures Rebuild(chain + [e], start, |chain| + 1) ==
            IndexRows(Rebuild(chain, start, |chain|), e.block, start + |chain|, e.order)
    ensures UndoAt(chain + [e], start, |chain|) == UndoFor(Rebuild(chain, start, |chain|), e.block, start + |chain|, e.order)
  {
    PrefixOnly(chain, chain + [e], start, |chain|);
  }

  lemma {:induction false} RebuildLess(chain: seq<Entry>, start: int, n: nat)
    requires n <= |chain|
    ensures Rebuild(chain[..n], start, n) == Rebuild(chain, start, n)
  {
    PrefixOnly(chain, chain[..n], start, n);
  }

  lemma {:induction false} UndoAgrees(chain: seq<Entry>, other: seq<Entry>, start: int, i: nat)
    requires i < |chain| && i < |other| && chain[..i] == other[..i] && chain[i] == other[i]
    ensures UndoAt(chain, start, i) == UndoAt(other, start, i)
  {
    PrefixOnly(chain, other, start, i);
  }

  /** An undo record that survives a step is still the right one for a chain that agrees that far. */
  lemma {:induction false} UndoCarries(undos: map<UndoKey, UndoBlock>, after: map<UndoKey, UndoBlock>, chain: seq<Entry>, other: seq<Entry>,
                    start: int, i: nat)
    requires i < |chain| && i < |other| && chain[..i] == other[..i] && chain[i] == other[i]
    requires UndoKept(undos, chain, start, i)
    requires var k := UndoKey(start + i, chain[i].block.header.hash); k in after && after[k] == undos[k]
    ensures UndoKept(after, other, start, i)
  {
    UndoAgrees(chain, other, start, i);
  }

  // ----- each step keeps the store in step

  lemma {:induction false} IndexKeepsUndo(undos: map<UndoKey, UndoBlock>, chain: seq<Entry>, start: int, low: int, e: Entry, undo: UndoBlock)
    requires UndoSynced(undos, chain, start, low) && undo == UndoAt(chain + [e], start, |chain|)
    ensures UndoSynced(undos[UndoKey(start + |chain|, e.block.header.hash) := undo], chain + [e], start, low)
  {
    var longer := chain + [e];
    var after := undos[UndoKey(start + |chain|, e.block.header.hash) := undo];
    forall i | low - start <= i < |longer| ensures UndoKept(after, longer, start, i) {
      if i < |chain| {
        assert UndoKept(undos, chain, start, i);
        assert chain[..i] == longer[..i];
        UndoCarries(undos, after, chain, longer, start, i);
      }
    }
  }

  /** The raw transaction rows after a block: its positions, its blob and its offsets. */
  ghost predicate TxRowsIndexed(db: Db, after: Db, txs: seq<Tx>, height: int) {
    && after.txPos == PutPositions(db.txPos, txs, height, |txs|)
    && after.blobs == db.blobs[height := Blob(txs, |txs|)]
    && after.offsets == db.offsets[height := Offsets(txs, |txs|)]
  }

  lemma {:induction false} NewStored(db: Db, after: Db, txs: seq<Tx>, height: int, t: nat)
    requires TxRowsIndexed(db, after, txs, height) && DistinctTxids(txs) && t < |txs|
    ensures Stored(after, txs, height, t)
  {
    OwnPosition(db.txPos, txs, height, |txs|, t);
  }

  lemma {:induction false} OldStored(db: Db, after: Db, txs: seq<Tx>, height: int, older: seq<Tx>, h: int, t: nat)
    requires TxRowsIndexed(db, after, txs, height) && t < |older| && Stored(db, older, h, t)
    requires h != height && older[t].txid !in Known(txs, |txs|)
    ensures Stored(after, older, h, t)
  {
    PositionAt(db.txPos, txs, height, |txs|, older[t].txid);
  }

  lemma {:induction false} FreshUnknown(txs: seq<Tx>, txids: set<Hash>, txid: Hash)
    requires Fresh(txs, txids) && txid in txids
    ensures txid !in Known(txs, |txs|)
  {
    forall i | 0 <= i < |txs| ensures txs[i].txid != txid {
      assert txs[i] in txs;
    }
  }

  lemma {:induction false} NewTxKept(db: Db, after: Db, chain: seq<Entry>, start: int, n: nat, t: nat)
    requires n < |chain| && t < |chain[n].block.txs| && Fresh(chain[n].block.txs, ChainTxids(chain, n))
    requires TxRowsIndexed(db, after, chain[n].block.txs, start + n)
    ensures TxKept(after, chain, start, n, t)
  {
    NewStored(db, after, chain[n].block.txs, start + n, t);
  }

  lemma {:induction false} OldTxKept(db: Db, after: Db, chain: seq<Entry>, start: int, n: nat, i: nat, t: nat)
    requires i < n < |chain| && t < |chain[i].block.txs| && Fresh(chain[n].block.txs, ChainTxids(chain, n))
    requires TxRowsIndexed(db, after, chain[n].block.txs, start + n) && TxKept(db, chain, start, i, t)
    ensures TxKept(after, chain, start, i, t)
  {
    OldTxid(chain, n, i, t);
    FreshUnknown(chain[n].block.txs, ChainTxids(chain, n), chain[i].block.txs[t].txid);
    OldStored(db, after, chain[n].block.txs, start + n, chain[i].block.txs, start + i, t);
  }

  lemma {:induction false} EachTxKept(db: Db, after: Db, chain: seq<Entry>, longer: seq<Entry>, start: int, n: nat, i: nat, t: nat)
    requires |longer| == n + 1 && |chain| == n && chain == longer[..n]
    requires TxSynced(db, chain, start) && Fresh(longer[n].block.txs, ChainTxids(longer, n))
    requires TxRowsIndexed(db, after, longer[n].block.txs, start + n)
    requires i < |longer| && t < |longer[i].block.txs|
    ensures TxKept(after, longer, start, i, t)
  {
    if i == n {
      NewTxKept(db, after, longer, start, n, t);
    } else {
      assert TxKept(db, chain, start, i, t);
      OldTxKept(db, after, longer, start, n, i, t);
    }
  }

  lemma {:induction false} IndexKeepsTxs(db: Db, after: Db, chain: seq<Entry>, longer: seq<Entry>, start: int, n: nat)
    requires |longer| == n + 1 && |chain| == n && chain == longer[..n]
    requires TxSynced(db, chain, start) && Fresh(longer[n].block.txs, ChainTxids(longer, n))
    requires TxRowsIndexed(db, after, longer[n].block.txs, start + n)
    ensures TxSynced(after, longer, start)
  {
    forall i, t | 0 <= i < |longer| && 0 <= t < |longer[i].block.txs| ensures TxKept(after, longer, start, i, t) {
      EachTxKept(db, after, chain, longer, start, n, i, t);
    }
  }

  lemma {:induction false} OldTxid(chain: seq<Entry>, n: nat, i: nat, t: nat)
    requires i < n <= |chain| && t < |chain[i].block.txs|
    ensures chain[i].block.txs[t].txid in ChainTxids(chain, n)
  {
    if i == n - 1 {
      assert Txids(chain[i].block.txs)[t] == chain[i].block.txs[t].txid;
    } else {
      OldTxid(chain, n - 1, i, t);
    }
  }

  lemma {:induction false} InStep(db: Db, chain: seq<Entry>, start: int, low: int, n: nat)
    requires n == |chain| && db.rows == Rebuild(chain, start, n) && UniqueTxids(chain)
    requires UndoSynced(db.undos, chain, start, low) && TxSynced(db, chain, start)
    ensures Synced(db, chain, start, low)
  {
  }

  lemma {:induction false} RowsAfter(db: Db, after: Db, chain: seq<Entry>, longer: seq<Entry>, start: int, e: Entry)
    requires db.rows == Rebuild(chain, start, |chain|) && longer == chain + [e]
    requires after == IndexDb(db, e.block, start + |chain|, e.order)
    ensures after.rows == Rebuild(longer, start, |chain| + 1)
  {
    RebuildMore(chain, e, start);
  }

  lemma {:induction false} UndosAfter(db: Db, after: Db, chain: seq<Entry>, longer: seq<Entry>, start: int, low: int, e: Entry)
    requires db.rows == Rebuild(chain, start, |chain|) && longer == chain + [e] && UndoSynced(db.undos, chain, start, low)
    requires after == IndexDb(db, e.block, start + |chain|, e.order)
    ensures UndoSynced(after.undos, longer, start, low)
  {
    RebuildMore(chain, e, start);
    IndexKeepsUndo(db.undos, chain, start, low, e, UndoAt(longer, start, |chain|));
  }

  lemma {:induction false} TxsAfter(db: Db, after: Db, chain: seq<Entry>, longer: seq<Entry>, start: int, e: Entry)
    requires longer == chain + [e] && TxSynced(db, chain, start) && Fresh(e.block.txs, ChainTxids(chain, |chain|))
    requires after == IndexDb(db, e.block, start + |chain|, e.order)
    ensures TxSynced(after, longer, start)
  {
    PrefixOnly(chain, longer, start, |chain|);
    IndexKeepsTxs(db, after, chain, longer, start, |chain|);
  }

  /** Indexing a block with new transaction ids on top keeps the store in step. */
  lemma {:induction false} IndexKeepsSynced(db: Db, after: Db, chain: seq<Entry>, longer: seq<Entry>, start: int, low: int, e: Entry)
    requires Synced(db, chain, start, low) && Fresh(e.block.txs, ChainTxids(chain, |chain|))
    requires longer == chain + [e] && after == IndexDb(db, e.block, start + |chain|, e.order)
    ensures Synced(after, longer, start, low)
  {
    UniqueMore(chain, e);
    RowsAfter(db, after, chain, longer, start, e);
    UndosAfter(db, after, chain, longer, start, low, e);
    TxsAfter(db, after, chain, longer, start, e);
    InStep(after, longer, start, low, |chain| + 1);
  }

  lemma {:induction false} RollbackKeepsUndo(undos: map<UndoKey, UndoBlock>, chain: seq<Entry>, start: int, low: int, n: nat)
    requires UndoSynced(undos, chain, start, low) && |chain| == n + 1 && low <= start + n
    ensures UndoSynced(undos - {UndoKey(start + n, chain[n].block.header.hash)}, chain[..n], start, low)
  {
    var shorter := chain[..n];
    var after := undos - {UndoKey(start + n, chain[n].block.header.hash)};
    forall i | low - start <= i < n ensures UndoKept(after, shorter, start, i) {
      assert UndoKept(undos, chain, start, i);
      assert chain[..i] == shorter[..i];
      UndoCarries(undos, after, chain, shorter, start, i);
    }
    forall k | k in after ensures KeyOnChain(k, shorter, start, low) {
      assert KeyOnChain(k, chain, start, low);
    }
  }

  lemma {:induction false} RollbackKeepsRows(rows: Rows, undo: UndoBlock, chain: seq<Entry>, start: int, n: nat)
    requires UniqueTxids(chain) && |chain| == n + 1
    requires rows == Rebuild(chain, start, n + 1) && undo == UndoAt(chain, start, n)
    ensures RollbackRows(rows, undo, start + n) == Rebuild(chain[..n], start, n)
  {
    RollbackIsReplay(chain, start, n);
    RebuildLess(chain, start, n);
  }

  lemma {:induction false} TxsCarry(db: Db, after: Db, chain: seq<Entry>, start: int, n: nat)
    requires TxSynced(db, chain, start) && n <= |chain|
    requires after.txPos == db.txPos && after.blobs == db.blobs && after.offsets == db.offsets
    ensures TxSynced(after, chain[..n], start)
  {
    forall i, t | 0 <= i < n && 0 <= t < |chain[..n][i].block.txs| ensures TxKept(after, chain[..n], start, i, t) {
      assert TxKept(db, chain, start, i, t);
    }
  }

  /** The tip can be rolled back exactly when its undo record has not been pruned. */
  lemma {:induction false} TipUndo(undos: map<UndoKey, UndoBlock>, chain: seq<Entry>, start: int, low: int, n: nat)
    requires UndoSynced(undos, chain, start, low) && |chain| == n + 1
    ensures UndoKey(start + n, chain[n].block.header.hash) in undos <==> low <= start + n
    ensures low <= start + n ==> UndoKept(undos, chain, start, n)
  {
    if low <= start + n {
      assert UndoKept(undos, chain, start, n);
    }
  }

  lemma {:induction false} RowsBefore(db: Db, after: Db, chain: seq<Entry>, shorter: seq<Entry>, start: int, low: int, n: nat, k: UndoKey)
    requires |chain| == n + 1 && shorter == chain[..n]
    requires UniqueTxids(chain) && db.rows == Rebuild(chain, start, n + 1) && UndoSynced(db.undos, chain, start, low)
    requires k == UndoKey(start + n, chain[n].block.header.hash) && k in db.undos && after == RollbackDb(db, k.height, k.blockHash)
    ensures after.rows == Rebuild(shorter, start, n)
  {
    TipUndo(db.undos, chain, start, low, n);
    RollbackKeepsRows(db.rows, db.undos[k], chain, start, n);
  }

  lemma {:induction false} UndosBefore(db: Db, after: Db, chain: seq<Entry>, shorter: seq<Entry>, start: int, low: int, n: nat, k: UndoKey)
    requires UndoSynced(db.undos, chain, start, low) && |chain| == n + 1 && shorter == chain[..n]
    requires k == UndoKey(start + n, chain[n].block.header.hash) && k in db.undos && after == RollbackDb(db, k.height, k.blockHash)
    ensures UndoSynced(after.undos, shorter, start, low)
  {
    TipUndo(db.undos, chain, start, low, n);
    RollbackKeepsUndo(db.undos, chain, start, low, n);
  }

  /** Rolling the tip back leaves the store in step with the chain below it. */
  lemma {:induction false} RollbackKeepsSynced(db: Db, after: Db, chain: seq<Entry>, shorter: seq<Entry>, start: int, low: int,
                                               n: nat, k: UndoKey)
    requires Synced(db, chain, start, low) && |chain| == n + 1 && shorter == chain[..n]
    requires k == UndoKey(start + n, chain[n].block.header.hash) && k in db.undos
    requires after == RollbackDb(db, k.height, k.blockHash)
    ensures Synced(after, shorter, start, low)
  {
    RowsBefore(db, after, chain, shorter, start, low, n, k);
    UndosBefore(db, after, chain, shorter, start, low, n, k);
    UniqueLess(chain, n);
    TxsCarry(db, after, chain, start, n);
    InStep(after, shorter, start, low, n);
  }

  /** The checkpoint row has no part in this. */
  lemma {:induction false} CheckpointIsFree(db: Db, c: Checkpoint, chain: seq<Entry>, start: int, low: int)
    requires Synced(db, chain, start, low)
    ensures Synced(db.(checkpoint := c), chain, start, low)
  {
    assert chain[..|chain|] == chain;
    TxsCarry(db, db.(checkpoint := c), chain, start, |chain|);
  }

  /** Pruning forgets undo records below a height and nothing else. */
  lemma {:induction false} PruneKeepsSynced(db: Db, chain: seq<Entry>, start: int, low: int, before: int)
    requires Synced(db, chain, start, low) && before <= start + |chain|
    ensures Synced(PruneDb(db, before), chain, start, if before > low then before else low)
  {
    var after := PruneDb(db, before);
    var high := if before > low then before else low;
    TxsCarry(db, after, chain, start, |chain|);
    assert chain[..|chain|] == chain;
    forall i | high - start <= i < |chain| ensures UndoKept(after.undos, chain, start, i) {
      assert UndoKept(db.undos, chain, start, i);
    }
    forall k | k in after.undos ensures KeyOnChain(k, chain, start, high) {
      assert KeyOnChain(k, chain, start, low);
    }
  }

  /** In step, every transaction of the current chain is returned byte for byte, despite leftover rows of orphaned blocks. */
  lemma {:induction false} SyncedTxFound(db: Db, chain: seq<Entry>, start: int, low: int, i: nat, t: nat)
    requires Synced(db, chain, start, low) && i < |chain| && t < |chain[i].block.txs|
    requires |Blob(chain[i].block.txs, t + 1)| < U32
    ensures TxFromDb(db, chain[i].block.txs[t].txid) == Found(chain[i].block.txs[t].raw, start + i)
  {
    assert TxKept(db, chain, start, i, t);
    StoredIsFound(db, chain[i].block.txs, start + i, t);
  }

  /** A transaction that only an orphaned block had is answered with another's bytes once a new block stands at its height:
      nothing compares the slice with the id asked for. */
  lemma {:induction false} OrphanIsMisserved(db: Db, b: Block, order: Order, c: Block, order': Order, height: int, rolled: Db, after: Db)
    requires b.txs != [] && c.txs != [] && DistinctTxids(b.txs)
    requires b.txs[0].txid !in Known(c.txs, |c.txs|) && |Blob(c.txs, 1)| < U32
    requires rolled == RollbackDb(IndexDb(db, b, height, order), height, b.header.hash) && after == IndexDb(rolled, c, height, order')
    ensures TxFromDb(after, b.txs[0].txid) == Found(c.txs[0].raw, height)
  {
    OwnPosition(db.txPos, b.txs, height, |b.txs|, 0);
    PositionAt(rolled.txPos, c.txs, height, |c.txs|, b.txs[0].txid);
    ServedByPosition(after, b.txs[0].txid, c.txs, height, 0);
  }
}
