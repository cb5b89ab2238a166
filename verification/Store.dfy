/** The key-value store, one map per key prefix, and its atomic write batches. */
module Store {
  import opened Types

  datatype UtxoKey = UtxoKey(scripthash: Hash, out: OutPoint)

  datatype UtxoValue = UtxoValue(value: int, height: int, blockHash: Hash)

  /** A history row; its value is empty, so the key is the whole row. */
  datatype HistoryKey = HistoryKey(scripthash: Hash, height: int, txIndex: nat, index: nat)

  datatype UndoOutput = UndoOutput(scripthash: Hash, out: OutPoint, value: int, height: int, blockHash: Hash) {
    function Key(): UtxoKey { UtxoKey(scripthash, out) }
    function Row(): UtxoValue { UtxoValue(value, height, blockHash) }
  }

  datatype UndoBlock = UndoBlock(
    height: int,
    blockHash: Hash,
    prevHash: Hash,
    spent: seq<UndoOutput>,
    created: seq<UndoOutput>,
    history: seq<HistoryKey>)

  datatype UndoKey = UndoKey(height: int, blockHash: Hash)

  datatype TxPos = TxPos(height: int, txIndex: nat)

  /** `hash` is None where the stored hex string is empty. */
  datatype Checkpoint = Checkpoint(height: int, hash: Option<Hash>, startHeight: int)

  /** The keyspaces that a rollback is meant to restore. */
  datatype Rows = Rows(
    utxos: map<UtxoKey, UtxoValue>,
    outpoints: map<OutPoint, Hash>,
    history: set<HistoryKey>,
    headers: map<int, Header>,
    txids: map<int, seq<Hash>>)

  const EMPTY_ROWS := Rows(map[], map[], {}, map[], map[])

  datatype Db = Db(
    rows: Rows,
    undos: map<UndoKey, UndoBlock>,
    txPos: map<Hash, TxPos>,
    blobs: map<int, Bytes>,
    offsets: map<int, seq<nat>>,
    checkpoint: Checkpoint)

  datatype Edit =
    | PutUtxo(utxoKey: UtxoKey, utxo: UtxoValue)
    | DeleteUtxo(utxoKey: UtxoKey)
    | PutOutpoint(out: OutPoint, scripthash: Hash)
    | DeleteOutpoint(out: OutPoint)
    | PutHistory(entry: HistoryKey)
    | DeleteHistory(entry: HistoryKey)
    | PutHeader(height: int, header: Header)
    | DeleteHeader(height: int)
    | PutTxids(height: int, txids: seq<Hash>)
    | DeleteTxids(height: int)
    | PutUndo(undoKey: UndoKey, undo: UndoBlock)
    | DeleteUndo(undoKey: UndoKey)
    | PutTxPos(txid: Hash, pos: TxPos)
    | PutBlob(height: int, blob: Bytes)
    | PutOffsets(height: int, offsets: seq<nat>)
    | PutCheckpoint(checkpoint: Checkpoint)

  function Edited(db: Db, e: Edit): Db {
    match e
    case PutUtxo(k, v) => db.(rows := db.rows.(utxos := db.rows.utxos[k := v]))
    case DeleteUtxo(k) => db.(rows := db.rows.(utxos := db.rows.utxos - {k}))
    case PutOutpoint(o, sh) => db.(rows := db.rows.(outpoints := db.rows.outpoints[o := sh]))
    case DeleteOutpoint(o) => db.(rows := db.rows.(outpoints := db.rows.outpoints - {o}))
    case PutHistory(k) => db.(rows := db.rows.(history := db.rows.history + {k}))
    case DeleteHistory(k) => db.(rows := db.rows.(history := db.rows.history - {k}))
    case PutHeader(h, x) => db.(rows := db.rows.(headers := db.rows.headers[h := x]))
    case DeleteHeader(h) => db.(rows := db.rows.(headers := db.rows.headers - {h}))
    case PutTxids(h, x) => db.(rows := db.rows.(txids := db.rows.txids[h := x]))
    case DeleteTxids(h) => db.(rows := db.rows.(txids := db.rows.txids - {h}))
    case PutUndo(k, u) => db.(undos := db.undos[k := u])
    case DeleteUndo(k) => db.(undos := db.undos - {k})
    case PutTxPos(t, p) => db.(txPos := db.txPos[t := p])
    case PutBlob(h, x) => db.(blobs := db.blobs[h := x])
    case PutOffsets(h, x) => db.(offsets := db.offsets[h := x])
    case PutCheckpoint(c) => db.(checkpoint := c)
  }

  /** The store after a batch commits: its edits in order, all or none. */
  function Committed(db: Db, batch: seq<Edit>): Db {
    if batch == [] then db else Edited(Committed(db, batch[..|batch| - 1]), batch[|batch| - 1])
  }

  lemma {:induction false} CommittedPlus(db: Db, batch: seq<Edit>, e: Edit)
    ensures Committed(db, batch + [e]) == Edited(Committed(db, batch), e)
  {
    assert (batch + [e])[..|batch|] == batch;
  }

  /** The store handle shared by the indexer, the reorg handler and the overlay. */
  class Database {
    var db: Db

    constructor ()
      ensures db == Db(EMPTY_ROWS, map[], map[], map[], map[], Checkpoint(0, None, 0))
    {
      db := Db(EMPTY_ROWS, map[], map[], map[], map[], Checkpoint(0, None, 0));
    }

    method Commit(batch: seq<Edit>)
      modifies this
      ensures db == Committed(old(db), batch)
    {
      db := Committed(db, batch);
    }

    method SaveCheckpoint(c: Checkpoint)
      modifies this
      ensures db == old(db).(checkpoint := c)
    {
      db := db.(checkpoint := c);
    }
  }
}
