/** Raw transactions: one blob and one offset list per height, and a position per transaction id. */
module TxStore {
  import opened Types
  import opened Store

  /** A length as it survives being stored in 32 bits. */
  function Word32(n: nat): nat {
    n % U32
  }

  lemma {:induction false} WordSmall(n: nat)
    requires n < U32
    ensures Word32(n) == n
  {
  }

  /** The serialised transactions of a block, end to end. */
  function Blob(txs: seq<Tx>, n: nat): Bytes
    requires n <= |txs|
  {
    if n == 0 then [] else Blob(txs, n - 1) + txs[n - 1].raw
  }

  /** Offsets are stored in 32 bits. */
  function Offsets(txs: seq<Tx>, n: nat): seq<nat>
    requires n <= |txs|
  {
    if n == 0 then [] else Offsets(txs, n - 1) + [Word32(|Blob(txs, n - 1)|)]
  }

  function PutPositions(m: map<Hash, TxPos>, txs: seq<Tx>, height: int, n: nat): map<Hash, TxPos>
    requires n <= |txs|
  {
    if n == 0 then m else PutPositions(m, txs, height, n - 1)[txs[n - 1].txid := TxPos(height, n - 1)]
  }

  datatype TxLookup = NotIndexed | Broken | Found(raw: Bytes, height: int)

  /** The raw bytes of a transaction: its slice of the blob at its height, or an error where the rows do not fit. */
  function TxFromDb(db: Db, txid: Hash): TxLookup {
    if txid !in db.txPos then NotIndexed else
    var pos := db.txPos[txid];
    if pos.height !in db.blobs || pos.height !in db.offsets then Broken else
    var blob, offsets := db.blobs[pos.height], db.offsets[pos.height];
    if pos.txIndex >= |offsets| then Broken else
    var first := offsets[pos.txIndex];
    var last := if pos.txIndex + 1 < |offsets| then offsets[pos.txIndex + 1] else Word32(|blob|);
    if last > |blob| || last < first then Broken else Found(blob[first..last], pos.height)
  }

  /** The rows stored for transaction i of a block at this height. */
  ghost predicate Stored(db: Db, txs: seq<Tx>, height: int, i: nat)
    requires i < |txs|
  {
    && txs[i].txid in db.txPos && db.txPos[txs[i].txid] == TxPos(height, i)
    && HoldsBlock(db, height, txs)
  }

  lemma {:induction false} BlobSlice(txs: seq<Tx>, n: nat, i: nat)
    requires i < n <= |txs|
    ensures |Blob(txs, i)| <= |Blob(txs, i + 1)| <= |Blob(txs, n)|
    ensures Blob(txs, n)[|Blob(txs, i)|..|Blob(txs, i + 1)|] == txs[i].raw
  {
    if i + 1 < n {
      BlobSlice(txs, n - 1, i);
    }
  }

  lemma {:induction false} OffsetAt(txs: seq<Tx>, n: nat, i: nat)
    requires i < n <= |txs|
    ensures |Offsets(txs, n)| == n && Offsets(txs, n)[i] == Word32(|Blob(txs, i)|)
  {
    if i + 1 < n {
      OffsetAt(txs, n - 1, i);
    } else if n > 1 {
      OffsetAt(txs, n - 1, 0);
    }
  }

  /** The block whose transactions are in the blob and offset rows of a height. */
  ghost predicate HoldsBlock(db: Db, height: int, txs: seq<Tx>) {
    && height in db.blobs && db.blobs[height] == Blob(txs, |txs|)
    && height in db.offsets && db.offsets[height] == Offsets(txs, |txs|)
  }

  /** What is served for a txid is whatever lies at its position in the blob at its height. */
  lemma {:induction false} ServedByPosition(db: Db, txid: Hash, txs: seq<Tx>, height: int, i: nat)
    requires txid in db.txPos && db.txPos[txid] == TxPos(height, i) && HoldsBlock(db, height, txs)
    ensures i >= |txs| ==> TxFromDb(db, txid) == Broken
    ensures i < |txs| && |Blob(txs, i + 1)| < U32 ==> TxFromDb(db, txid) == Found(txs[i].raw, height)
  {
    var blob, offsets := Blob(txs, |txs|), Offsets(txs, |txs|);
    if txs != [] {
      OffsetAt(txs, |txs|, 0);
    }
    if i < |txs| && |Blob(txs, i + 1)| < U32 {
      BlobSlice(txs, |txs|, i);
      OffsetAt(txs, |txs|, i);
      WordSmall(|Blob(txs, i)|);
      WordSmall(|Blob(txs, i + 1)|);
      if i + 1 < |txs| {
        OffsetAt(txs, |txs|, i + 1);
      }
      var last := if i + 1 < |offsets| then offsets[i + 1] else Word32(|blob|);
      assert offsets[i] == |Blob(txs, i)| && last == |Blob(txs, i + 1)|;
    }
  }

  /** A stored transaction that ends below the 32-bit limit is returned byte for byte. */
  lemma {:induction false} StoredIsFound(db: Db, txs: seq<Tx>, height: int, i: nat)
    requires i < |txs| && Stored(db, txs, height, i)
    requires |Blob(txs, i + 1)| < U32
    ensures TxFromDb(db, txs[i].txid) == Found(txs[i].raw, height)
  {
    ServedByPosition(db, txs[i].txid, txs, height, i);
  }

  /** Positions of a block go over those of earlier blocks. */
  lemma {:induction false} PutPositionsOver(m: map<Hash, TxPos>, txs: seq<Tx>, height: int, n: nat, txid: Hash)
    requires n <= |txs|
    ensures var own, all := PutPositions(map[], txs, height, n), PutPositions(m, txs, height, n);
            && (txid in all <==> txid in own || txid in m)
            && (txid in all ==> all[txid] == if txid in own then own[txid] else m[txid])
            && (txid in own ==> own[txid].height == height)
  {
    if n > 0 {
      PutPositionsOver(m, txs, height, n - 1, txid);
    }
  }

  lemma {:induction false} PositionAt(m: map<Hash, TxPos>, txs: seq<Tx>, height: int, n: nat, txid: Hash)
    requires n <= |txs|
    ensures txid !in Known(txs, n) ==>
            (txid in PutPositions(m, txs, height, n) <==> txid in m) &&
            (txid in m ==> PutPositions(m, txs, height, n)[txid] == m[txid])
  {
    if n > 0 {
      PositionAt(m, txs, height, n - 1, txid);
    }
  }

  function Known(txs: seq<Tx>, n: nat): set<Hash>
    requires n <= |txs|
  {
    set i | 0 <= i < n :: txs[i].txid
  }

  lemma {:induction false} OwnPosition(m: map<Hash, TxPos>, txs: seq<Tx>, height: int, n: nat, i: nat)
    requires i < n <= |txs|
    requires forall a, b :: 0 <= a < b < |txs| ==> txs[a].txid != txs[b].txid
    ensures txs[i].txid in PutPositions(m, txs, height, n)
    ensures PutPositions(m, txs, height, n)[txs[i].txid] == TxPos(height, i)
  {
    if i + 1 < n {
      OwnPosition(m, txs, height, n - 1, i);
    }
  }
}
