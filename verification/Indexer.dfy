/** The block indexer: one nested loop that fills a write batch and an undo record, then commits. */
module Indexer {
  import opened Types
  import opened Store
  import opened Indexing
  import opened TxStore
  import opened Overlay
  import opened Mempool

  const HEADER_LENGTH := 80

  // ----- what a block does to the whole store

  function IndexDb(db: Db, b: Block, height: int, order: Order): Db {
    Db(IndexRows(db.rows, b, height, order),
       db.undos[UndoKey(height, b.header.hash) := UndoFor(db.rows, b, height, order)],
       PutPositions(db.txPos, b.txs, height, |b.txs|),
       db.blobs[height := Blob(b.txs, |b.txs|)],
       db.offsets[height := Offsets(b.txs, |b.txs|)],
       Checkpoint(height, Some(b.header.hash), db.checkpoint.startHeight))
  }

  // ----- what it does to the overlay

  /** The outpoints for which the indexer finds a confirmed scripthash. */
  function KnownPrevs(rows: Rows, ins: seq<TxIn>): set<OutPoint> {
    set i | i in ins && !IsCoinbaseInput(i) && i.prev in rows.outpoints :: i.prev
  }

  function OutputsRemoved(ov: OverlayView, outs: set<OutPoint>): OverlayView {
    ov.(outputs := ov.outputs - outs, spentBy := ov.spentBy - outs)
  }

  function ConfirmTx(ov: OverlayView, rows: Rows, txs: seq<Tx>, i: nat): OverlayView
    requires i < |txs|
  {
    Removed(if i == 0 then ov else OutputsRemoved(ov, KnownPrevs(rows, txs[i].ins)), txs[i].txid)
  }

  function ConfirmBlock(ov: OverlayView, rows: Rows, txs: seq<Tx>, n: nat): OverlayView
    requires n <= |txs|
  {
    if n == 0 then ov else ConfirmTx(ConfirmBlock(ov, rows, txs, n - 1), rows, txs, n - 1)
  }

  // ----- the store as the batch leaves it

  function WithoutSpent(db: Db, s: seq<UndoOutput>): Db {
    db.(rows := db.rows.(utxos := db.rows.utxos - Keys(s), outpoints := db.rows.outpoints - Outs(s)))
  }

  function WithCreated(db: Db, s: seq<UndoOutput>): Db {
    db.(rows := db.rows.(utxos := PutUtxos(db.rows.utxos, s), outpoints := PutOutpoints(db.rows.outpoints, s)))
  }

  function WithHistory(db: Db, s: seq<HistoryKey>): Db {
    db.(rows := db.rows.(history := db.rows.history + Elements(s)))
  }

  function WithPosition(db: Db, txid: Hash, pos: TxPos): Db {
    db.(txPos := db.txPos[txid := pos])
  }

  lemma {:induction false} KeysWith(s: seq<UndoOutput>, u: UndoOutput)
    ensures Keys(s + [u]) == Keys(s) + {u.Key()}
    ensures Outs(s + [u]) == Outs(s) + {u.out}
  {
    assert forall x :: x in s + [u] <==> x in s || x == u;
  }

  lemma {:induction false} MapMinus<K, V>(m: map<K, V>, a: set<K>, k: K)
    ensures m - a - {k} == m - (a + {k})
  {
  }

  lemma {:induction false} TwoMore(db: Db, batch: seq<Edit>, e: Edit, f: Edit)
    ensures Committed(db, batch + [e] + [f]) == Edited(Edited(Committed(db, batch), e), f)
  {
    CommittedPlus(db, batch, e);
    CommittedPlus(db, batch + [e], f);
  }

  lemma {:induction false} SpentGone(p: Db, s: seq<UndoOutput>, u: UndoOutput)
    ensures Edited(Edited(WithoutSpent(p, s), DeleteUtxo(u.Key())), DeleteOutpoint(u.out)) == WithoutSpent(p, s + [u])
  {
    KeysWith(s, u);
    MapMinus(p.rows.utxos, Keys(s), u.Key());
    MapMinus(p.rows.outpoints, Outs(s), u.out);
  }

  lemma {:induction false} CreatedThere(p: Db, s: seq<UndoOutput>, u: UndoOutput)
    ensures Edited(Edited(WithCreated(p, s), PutUtxo(u.Key(), u.Row())), PutOutpoint(u.out, u.scripthash)) ==
            WithCreated(p, s + [u])
  {
    assert (s + [u])[..|s|] == s;
  }

  lemma {:induction false} WithoutSpentStep(db: Db, p: Db, batch: seq<Edit>, s: seq<UndoOutput>, u: UndoOutput)
    requires Committed(db, batch) == WithoutSpent(p, s)
    ensures Committed(db, batch + [DeleteUtxo(u.Key())] + [DeleteOutpoint(u.out)]) == WithoutSpent(p, s + [u])
  {
    TwoMore(db, batch, DeleteUtxo(u.Key()), DeleteOutpoint(u.out));
    SpentGone(p, s, u);
  }

  lemma {:induction false} WithCreatedStep(db: Db, p: Db, batch: seq<Edit>, s: seq<UndoOutput>, u: UndoOutput)
    requires Committed(db, batch) == WithCreated(p, s)
    ensures Committed(db, batch + [PutUtxo(u.Key(), u.Row())] + [PutOutpoint(u.out, u.scripthash)]) == WithCreated(p, s + [u])
  {
    TwoMore(db, batch, PutUtxo(u.Key(), u.Row()), PutOutpoint(u.out, u.scripthash));
    CreatedThere(p, s, u);
  }

  lemma {:induction false} WithHistoryStep(db: Db, p: Db, batch: seq<Edit>, s: seq<HistoryKey>, k: HistoryKey)
    requires Committed(db, batch) == WithHistory(p, s)
    ensures Committed(db, batch + [PutHistory(k)]) == WithHistory(p, s + [k])
  {
    CommittedPlus(db, batch, PutHistory(k));
    assert forall x :: x in s + [k] <==> x in s || x == k;
    assert Elements(s + [k]) == Elements(s) + {k};
    assert p.rows.history + Elements(s) + {k} == p.rows.history + Elements(s + [k]);
  }

  // ----- which (scripthash, txid) pairs already have a history row

  function Pairs(scripthashes: set<Hash>, txid: Hash): set<(Hash, Hash)> {
    set sh | sh in scripthashes :: (sh, txid)
  }

  function Unseen(scripthashes: set<Hash>, txid: Hash, seen: set<(Hash, Hash)>): set<Hash> {
    set sh | sh in scripthashes && (sh, txid) !in seen
  }

  ghost function Seen(rows: Rows, txs: seq<Tx>, n: nat): set<(Hash, Hash)>
    requires n <= |txs|
  {
    if n == 0 then {} else Seen(rows, txs, n - 1) + Pairs(Touched(rows, txs, n - 1), txs[n - 1].txid)
  }

  lemma {:induction false} SeenExact(rows: Rows, txs: seq<Tx>, n: nat, sh: Hash, txid: Hash)
    requires n <= |txs|
    ensures (sh, txid) in Seen(rows, txs, n) <==>
            exists j :: 0 <= j < n && txs[j].txid == txid && sh in Touched(rows, txs, j)
  {
    if n > 0 {
      SeenExact(rows, txs, n - 1, sh, txid);
    }
  }

  lemma {:induction false} NewlyTouchedIsUnseen(rows: Rows, txs: seq<Tx>, i: nat)
    requires i < |txs|
    ensures NewlyTouched(rows, txs, i) ==
            Unseen(Touched(rows, txs, i), txs[i].txid, Seen(rows, txs, i))
  {
    forall sh ensures sh in NewlyTouched(rows, txs, i) <==>
                      sh in Touched(rows, txs, i) && (sh, txs[i].txid) !in Seen(rows, txs, i)
    {
      SeenExact(rows, txs, i, sh, txs[i].txid);
    }
  }

  /** The first n transactions have their visiting orders. */
  ghost predicate Numbered(rows: Rows, txs: seq<Tx>, order: Order, n: nat)
    requires n <= |txs|
  {
    && |order| == n
    && forall i {:trigger Enumerates(order[i], NewlyTouched(rows, txs, i))} ::
         0 <= i < n ==> Enumerates(order[i], NewlyTouched(rows, txs, i))
  }

  lemma {:induction false} NumberedStep(rows: Rows, txs: seq<Tx>, order: Order, visit: seq<Hash>)
    requires |order| < |txs| && Numbered(rows, txs, order, |order|)
    requires Enumerates(visit, NewlyTouched(rows, txs, |order|))
    ensures Numbered(rows, txs, order + [visit], |order| + 1)
  {
    forall i | 0 <= i <= |order| ensures Enumerates((order + [visit])[i], NewlyTouched(rows, txs, i)) {
      if i < |order| {
        assert Enumerates(order[i], NewlyTouched(rows, txs, i));
      }
    }
  }

  /** What the loop over a block's transactions accumulates. */
  datatype Work = Work(batch: seq<Edit>, spent: seq<UndoOutput>, created: seq<UndoOutput>, history: seq<HistoryKey>,
                       seen: set<(Hash, Hash)>)

  /** The batch and the undo lists after n transactions. */
  ghost predicate PreparedNow(db: Db, b: Block, height: int, order: Order, n: nat, w: Work)
    requires n <= |b.txs|
  {
    && Numbered(db.rows, b.txs, order, n)
    && Committed(db, w.batch) == PendingDb(db, b, height, order, n)
    && w.spent == SpentList(db.rows, b.txs, n)
    && w.created == CreatedList(b.txs, n, height, b.header.hash)
    && w.history == HistoryList(order, n, height)
    && w.seen == Seen(db.rows, b.txs, n)
  }

  /** Mentioning UnfoldsAt(n) in a proof unfolds the two predicates below at n. */
  ghost predicate UnfoldsAt(n: nat) {
    true
  }

  ghost predicate Prepared(db: Db, b: Block, height: int, order: Order, n: nat, w: Work) {
    n <= |b.txs| && forall m {:trigger UnfoldsAt(m)} :: m == n ==> PreparedNow(db, b, height, order, m, w)
  }

  lemma {:induction false} PreparedNone(db: Db, b: Block, height: int)
    ensures Prepared(db, b, height, [], 0, Work([], [], [], [], {}))
  {
    PendingDbNone(db, b, height);
    assert PreparedNow(db, b, height, [], 0, Work([], [], [], [], {}));
  }

  lemma {:induction false} PreparedBatch(db: Db, b: Block, height: int, order: Order, n: nat, visit: seq<Hash>, w: Work, batch: seq<Edit>,
                                         spent: seq<UndoOutput>, made: seq<UndoOutput>, history: seq<HistoryKey>)
    requires n < |b.txs| && |order| == n && w.history == HistoryList(order, n, height)
    requires spent == TxSpent(db.rows, b.txs, n)
    requires made == Created(b.txs[n].txid, b.txs[n].outs, height, b.header.hash)
    requires history == TxHistory(visit, height, n, |w.history|)
    requires Committed(db, batch) ==
             AfterTx(PendingDb(db, b, height, order, n), b.txs[n].txid, TxPos(height, n), spent, made, history)
    ensures Committed(db, batch) == PendingDb(db, b, height, order + [visit], n + 1)
  {
    PendingDbStep(db, b, height, order, visit);
  }

  lemma {:induction false} PreparedStep(db: Db, b: Block, height: int, order: Order, n: nat, visit: seq<Hash>, w: Work, batch: seq<Edit>,
                     spent: seq<UndoOutput>, made: seq<UndoOutput>, history: seq<HistoryKey>, seen: set<(Hash, Hash)>)
    requires n < |b.txs| && PreparedNow(db, b, height, order, n, w)
    requires Enumerates(visit, NewlyTouched(db.rows, b.txs, n)) && seen == Seen(db.rows, b.txs, n + 1)
    requires spent == TxSpent(db.rows, b.txs, n)
    requires made == Created(b.txs[n].txid, b.txs[n].outs, height, b.header.hash)
    requires history == TxHistory(visit, height, n, |w.history|)
    requires Committed(db, batch) ==
             AfterTx(PendingDb(db, b, height, order, n), b.txs[n].txid, TxPos(height, n), spent, made, history)
    ensures Prepared(db, b, height, order + [visit], n + 1,
                     Work(batch, w.spent + spent, w.created + made, w.history + history, seen))
  {
    PreparedBatch(db, b, height, order, n, visit, w, batch, spent, made, history);
    PreparedLists(db, b, height, order, n, visit, w, spent, made, history);
    NumberedStep(db.rows, b.txs, order, visit);
    PreparedFrom(db, b, height, order + [visit], n + 1, Work(batch, w.spent + spent, w.created + made, w.history + history, seen));
  }

  lemma {:induction false} PreparedLists(db: Db, b: Block, height: int, order: Order, n: nat, visit: seq<Hash>, w: Work,
                                         spent: seq<UndoOutput>, made: seq<UndoOutput>, history: seq<HistoryKey>)
    requires n < |b.txs| && |order| == n && w.spent == SpentList(db.rows, b.txs, n)
    requires w.created == CreatedList(b.txs, n, height, b.header.hash) && w.history == HistoryList(order, n, height)
    requires spent == TxSpent(db.rows, b.txs, n) && history == TxHistory(visit, height, n, |w.history|)
    requires made == Created(b.txs[n].txid, b.txs[n].outs, height, b.header.hash)
    ensures w.spent + spent == SpentList(db.rows, b.txs, n + 1)
    ensures w.created + made == CreatedList(b.txs, n + 1, height, b.header.hash)
    ensures w.history + history == HistoryList(order + [visit], n + 1, height)
  {
    HistoryPrefix(order, visit, height, n);
  }

  lemma {:induction false} PreparedFrom(db: Db, b: Block, height: int, order: Order, n: nat, w: Work)
    requires n <= |b.txs| && Numbered(db.rows, b.txs, order, n) && Committed(db, w.batch) == PendingDb(db, b, height, order, n)
    requires w.spent == SpentList(db.rows, b.txs, n) && w.created == CreatedList(b.txs, n, height, b.header.hash)
    requires w.history == HistoryList(order, n, height) && w.seen == Seen(db.rows, b.txs, n)
    ensures Prepared(db, b, height, order, n, w)
  {
    assert PreparedNow(db, b, height, order, n, w);
  }

  /** The raw transaction rows after n transactions. */
  ghost predicate PackedNow(txs: seq<Tx>, n: nat, blob: Bytes, offsets: seq<nat>, txids: seq<Hash>)
    requires n <= |txs|
  {
    blob == Blob(txs, n) && offsets == Offsets(txs, n) && txids == Txids(txs[..n])
  }

  ghost predicate Packed(txs: seq<Tx>, n: nat, blob: Bytes, offsets: seq<nat>, txids: seq<Hash>) {
    n <= |txs| && forall m {:trigger UnfoldsAt(m)} :: m == n ==> PackedNow(txs, m, blob, offsets, txids)
  }

  lemma {:induction false} PackedNone(txs: seq<Tx>)
    ensures Packed(txs, 0, [], [], [])
  {
    assert Txids(txs[..0]) == [];
    assert PackedNow(txs, 0, [], [], []);
  }

  lemma {:induction false} PackedStep(txs: seq<Tx>, n: nat, blob: Bytes, offsets: seq<nat>, txids: seq<Hash>)
    requires n < |txs| && Packed(txs, n, blob, offsets, txids)
    ensures Packed(txs, n + 1, blob + txs[n].raw, offsets + [Word32(|blob|)], txids + [txs[n].txid])
  {
    assert UnfoldsAt(n);
    assert Txids(txs[..n + 1]) == Txids(txs[..n]) + [txs[n].txid];
    assert PackedNow(txs, n + 1, blob + txs[n].raw, offsets + [Word32(|blob|)], txids + [txs[n].txid]);
  }

  class BlockIndexer {
    const store: Database
    const mempool: MempoolOverlay

    constructor (store: Database, mempool: MempoolOverlay)
      ensures this.store == store && this.mempool == mempool
    {
      this.store, this.mempool := store, mempool;
    }

    /** Indexes a block atomically: the store changes only if every edit could be prepared. */
    method IndexBlock(b: Block, height: int) returns (ok: bool, ghost order: Order)
      requires mempool.Valid() && mempool.store == store
      modifies store, mempool
      ensures mempool.Valid() && mempool.cells == old(mempool.cells)
      ensures mempool.view == ConfirmBlock(old(mempool.view), old(store.db.rows), b.txs, |b.txs|)
      ensures ValidOrder(old(store.db.rows), b.txs, order)
      ensures ok <==> height >= 0 && |b.header.raw| == 80
      ensures store.db == if ok then IndexDb(old(store.db), b, height, order) else old(store.db)
      ensures ok ==> store.db.checkpoint == Checkpoint(height, Some(b.header.hash), old(store.db).checkpoint.startHeight)
    {
      ghost var db := store.db;
      var w, blob, offsets, txids;
      w, blob, offsets, txids, order := PrepareBlock(db, b, height);
      var undo := UndoBlock(height, b.header.hash, b.header.prev, w.spent, w.created, w.history);
      PreparedAll(db, b, height, order, w, blob, offsets, txids, undo);
      if height < 0 || |b.header.raw| != HEADER_LENGTH {
        return false, order;
      }
      store.Commit(Closed(w.batch, b, height, txids, blob, offsets, undo, store.db.checkpoint.startHeight));
      ok := true;
    }

    /** The loop over the transactions of a block: the batch and the undo record, nothing committed yet. */
    method PrepareBlock(ghost db: Db, b: Block, height: int)
      returns (w: Work, blob: Bytes, offsets: seq<nat>, txids: seq<Hash>, ghost order: Order)
      requires mempool.Valid() && db == store.db
      modifies mempool
      ensures mempool.Valid() && mempool.cells == old(mempool.cells)
      ensures mempool.view == ConfirmBlock(old(mempool.view), db.rows, b.txs, |b.txs|)
      ensures Prepared(db, b, height, order, |b.txs|, w) && Packed(b.txs, |b.txs|, blob, offsets, txids)
    {
      blob, offsets, txids, order := [], [], [], [];
      w := Work([], [], [], [], {});
      ghost var was := mempool.view;
      PreparedNone(db, b, height);
      PackedNone(b.txs);
      for i := 0 to |b.txs|
        invariant mempool.Valid() && mempool.cells == old(mempool.cells)
        invariant mempool.view == ConfirmBlock(was, db.rows, b.txs, i)
        invariant Prepared(db, b, height, order, i, w)
        invariant Packed(b.txs, i, blob, offsets, txids)
      {
        PackedStep(b.txs, i, blob, offsets, txids);
        txids, offsets, blob := txids + [b.txs[i].txid], offsets + [Word32(|blob|)], blob + b.txs[i].raw;
        w, order := AddTx(db, b, height, order, i, w);
      }
    }

    method AddTx(ghost db: Db, b: Block, height: int, ghost order: Order, i: nat, w: Work)
      returns (w': Work, ghost order': Order)
      requires mempool.Valid() && db == store.db && i < |b.txs| && Prepared(db, b, height, order, i, w)
      modifies mempool
      ensures mempool.Valid() && mempool.cells == old(mempool.cells)
      ensures mempool.view == ConfirmTx(old(mempool.view), db.rows, b.txs, i)
      ensures Prepared(db, b, height, order', i + 1, w')
    {
      var batch, spent, made, history, seen;
      ghost var visit;
      assert UnfoldsAt(i);
      batch, spent, made, history, seen, visit :=
        IndexTx(db, PendingDb(db, b, height, order, i), w.batch, b, height, i, w.seen, |w.history|);
      PreparedStep(db, b, height, order, i, visit, w, batch, spent, made, history, seen);
      w' := Work(batch, w.spent + spent, w.created + made, w.history + history, seen);
      order' := order + [visit];
    }

    /** The body of the loop, for transaction i. */
    method IndexTx(ghost db: Db, ghost p: Db, batch0: seq<Edit>, b: Block, height: int, i: nat,
                   seen0: set<(Hash, Hash)>, base: nat)
      returns (batch: seq<Edit>, spent: seq<UndoOutput>, made: seq<UndoOutput>, history: seq<HistoryKey>,
               seen: set<(Hash, Hash)>, ghost visit: seq<Hash>)
      requires mempool.Valid() && db == store.db && Committed(db, batch0) == p
      requires i < |b.txs| && seen0 == Seen(db.rows, b.txs, i)
      modifies mempool
      ensures mempool.Valid() && mempool.cells == old(mempool.cells)
      ensures mempool.view == ConfirmTx(old(mempool.view), db.rows, b.txs, i)
      ensures spent == TxSpent(db.rows, b.txs, i)
      ensures made == Created(b.txs[i].txid, b.txs[i].outs, height, b.header.hash)
      ensures history == TxHistory(visit, height, i, base) && Enumerates(visit, NewlyTouched(db.rows, b.txs, i))
      ensures seen == Seen(db.rows, b.txs, i + 1)
      ensures Committed(db, batch) == AfterTx(p, b.txs[i].txid, TxPos(height, i), spent, made, history)
    {
      var tx, touched := b.txs[i], {};
      ghost var p1 := WithPosition(p, tx.txid, TxPos(height, i));
      batch, spent, made, touched := MoveOutputs(db, p, p1, batch0, b, height, i);
      NewlyTouchedIsUnseen(db.rows, b.txs, i);
      batch, history, seen, visit :=
        WriteHistory(db, WithCreated(WithoutSpent(p1, spent), made), batch, touched, seen0, tx.txid, height, i, base);
      var _ := mempool.RemoveTransaction(tx.txid);
    }

    /** The transaction's position, then the outputs it spends, then those it makes. */
    method MoveOutputs(ghost db: Db, ghost p: Db, ghost p1: Db, batch0: seq<Edit>, b: Block, height: int, i: nat)
      returns (batch: seq<Edit>, spent: seq<UndoOutput>, made: seq<UndoOutput>, touched: set<Hash>)
      requires mempool.Valid() && db == store.db && Committed(db, batch0) == p
      requires i < |b.txs| && p1 == WithPosition(p, b.txs[i].txid, TxPos(height, i))
      modifies mempool`outputs, mempool`spentBy, mempool`view
      ensures mempool.Valid()
      ensures mempool.view == if i == 0 then old(mempool.view)
                              else OutputsRemoved(old(mempool.view), KnownPrevs(db.rows, b.txs[i].ins))
      ensures spent == TxSpent(db.rows, b.txs, i) && touched == Touched(db.rows, b.txs, i)
      ensures made == Created(b.txs[i].txid, b.txs[i].outs, height, b.header.hash)
      ensures Committed(db, batch) == WithCreated(WithoutSpent(p1, spent), made)
    {
      var tx := b.txs[i];
      batch := batch0 + [PutTxPos(tx.txid, TxPos(height, i))];
      CommittedPlus(db, batch0, PutTxPos(tx.txid, TxPos(height, i)));
      WithoutSpentNone(p1);
      touched := {};
      spent := [];
      if i != 0 {
        batch, spent, touched := SpendInputs(db, p1, batch, tx.ins);
      }
      batch, made, touched := CreateOutputs(db, WithoutSpent(p1, spent), batch, touched, tx, height, b.header.hash);
    }

    /** Deletes the rows of the outputs a transaction spends, as far as they are committed. */
    method SpendInputs(ghost db: Db, ghost p: Db, batch0: seq<Edit>, ins: seq<TxIn>)
      returns (batch: seq<Edit>, spent: seq<UndoOutput>, touched: set<Hash>)
      requires mempool.Valid() && db == store.db && Committed(db, batch0) == p
      modifies mempool`outputs, mempool`spentBy, mempool`view
      ensures mempool.Valid() && mempool.view == OutputsRemoved(old(mempool.view), KnownPrevs(db.rows, ins))
      ensures spent == Spent(db.rows, ins) && touched == Scripthashes(spent)
      ensures Committed(db, batch) == WithoutSpent(p, spent)
    {
      batch, spent, touched := batch0, [], {};
      ghost var was, gone: set<OutPoint> := mempool.view, {};
      OutputsRemovedNone(was);
      WithoutSpentNone(p);
      for i := 0 to |ins|
        invariant mempool.Valid() && gone == KnownPrevs(db.rows, ins[..i])
        invariant mempool.view == OutputsRemoved(was, gone)
        invariant spent == Spent(db.rows, ins[..i]) && touched == Scripthashes(spent)
        invariant Committed(db, batch) == WithoutSpent(p, spent)
      {
        InputStep(db.rows, ins, i);
        if !IsCoinbaseInput(ins[i]) && ins[i].prev in store.db.rows.outpoints {
          OutputsRemovedStep(was, gone, ins[i].prev);
          batch, spent, touched := DeleteSpent(store.db.rows, db, p, batch, spent, touched, ins[i]);
          mempool.RemoveOutput(ins[i].prev);
          gone := gone + {ins[i].prev};
        }
      }
      assert ins[..|ins|] == ins;
    }

    /** Adds the deletion of one spent output to the batch, if its row is committed. */
    static method DeleteSpent(rows: Rows, ghost db: Db, ghost p: Db, batch0: seq<Edit>, spent0: seq<UndoOutput>,
                              touched0: set<Hash>, txIn: TxIn)
      returns (batch: seq<Edit>, spent: seq<UndoOutput>, touched: set<Hash>)
      requires !IsCoinbaseInput(txIn) && txIn.prev in rows.outpoints
      requires Committed(db, batch0) == WithoutSpent(p, spent0) && touched0 == Scripthashes(spent0)
      ensures Committed(db, batch) == WithoutSpent(p, spent) && touched == Scripthashes(spent)
      ensures spent == spent0 + Lookup(rows, txIn)
    {
      batch, spent, touched := batch0, spent0, touched0;
      var k := UtxoKey(rows.outpoints[txIn.prev], txIn.prev);
      if k in rows.utxos {
        var utxo := rows.utxos[k];
        var u := UndoOutput(k.scripthash, k.out, utxo.value, utxo.height, utxo.blockHash);
        WithoutSpentStep(db, p, batch, spent, u);
        SpentScripthashes(spent, u);
        batch := batch + [DeleteUtxo(k)] + [DeleteOutpoint(k.out)];
        spent, touched := spent + [u], touched + {k.scripthash};
      }
    }

    /** Adds the rows of a transaction's indexable outputs to the batch. */
    static method CreateOutputs(ghost db: Db, ghost p: Db, batch0: seq<Edit>, touched0: set<Hash>,
                                tx: Tx, height: int, hash: Hash)
      returns (batch: seq<Edit>, made: seq<UndoOutput>, touched: set<Hash>)
      requires Committed(db, batch0) == p
      ensures Committed(db, batch) == WithCreated(p, made)
      ensures made == Created(tx.txid, tx.outs, height, hash)
      ensures touched == touched0 + IndexedScripthashes(tx.outs)
    {
      batch, made, touched := batch0, [], touched0;
      for i := 0 to |tx.outs|
        invariant Committed(db, batch) == WithCreated(p, made)
        invariant made == Created(tx.txid, tx.outs[..i], height, hash)
        invariant touched == touched0 + IndexedScripthashes(tx.outs[..i])
      {
        OutputStep(tx.txid, tx.outs, height, hash, i);
        var out := tx.outs[i];
        if IsOpReturn(out.script) || out.value == 0 {
          continue;
        }
        var u := UndoOutput(out.scripthash, OutPoint(tx.txid, i), out.value, height, hash);
        WithCreatedStep(db, p, batch, made, u);
        batch := batch + [PutUtxo(u.Key(), u.Row())] + [PutOutpoint(u.out, u.scripthash)];
        made, touched := made + [u], touched + {out.scripthash};
      }
      assert tx.outs[..|tx.outs|] == tx.outs;
    }

    /** Adds one history row for each touched scripthash, in no particular order. */
    static method WriteHistory(ghost db: Db, ghost p: Db, batch0: seq<Edit>, touched: set<Hash>, seen0: set<(Hash, Hash)>,
                               txid: Hash, height: int, txIndex: nat, base: nat)
      returns (batch: seq<Edit>, history: seq<HistoryKey>, seen: set<(Hash, Hash)>, ghost visit: seq<Hash>)
      requires Committed(db, batch0) == p
      ensures Committed(db, batch) == WithHistory(p, history)
      ensures history == TxHistory(visit, height, txIndex, base)
      ensures Enumerates(visit, Unseen(touched, txid, seen0))
      ensures seen == seen0 + Pairs(touched, txid)
    {
      batch, history, seen, visit := batch0, [], seen0, [];
      var todo := touched;
      ghost var done: set<Hash> := {};
      while todo != {}
        invariant done <= touched && forall sh :: sh in todo <==> sh in touched && sh !in done
        invariant Committed(db, batch) == WithHistory(p, history)
        invariant history == TxHistory(visit, height, txIndex, base)
        invariant Enumerates(visit, Unseen(done, txid, seen0))
        invariant seen == seen0 + Pairs(done, txid)
        decreases todo
      {
        var sh :| sh in todo;
        VisitStep(visit, done, sh, seen0, txid);
        if (sh, txid) !in seen {
          var k := HistoryKey(sh, height, txIndex, base + |history|);
          WithHistoryStep(db, p, batch, history, k);
          assert TxHistory(visit + [sh], height, txIndex, base) == history + [k];
          batch, history, visit := batch + [PutHistory(k)], history + [k], visit + [sh];
          seen := seen + {(sh, txid)};
        }
        todo, done := todo - {sh}, done + {sh};
      }
      assert done == touched;
    }
  }

  // ----- the batch after n transactions

  /** Lookups read db; the batch has by then turned it into this. */
  function PendingDb(db: Db, b: Block, height: int, order: Order, n: nat): Db
    requires n <= |b.txs| && n <= |order|
  {
    db.(rows := Rows(PendingUtxos(db.rows, b, height, n), PendingOutpoints(db.rows, b, height, n),
                     db.rows.history + Elements(HistoryList(order, n, height)), db.rows.headers, db.rows.txids),
        txPos := PutPositions(db.txPos, b.txs, height, n))
  }

  lemma {:induction false} PendingDbNone(db: Db, b: Block, height: int)
    ensures PendingDb(db, b, height, [], 0) == db
  {
    assert db.rows.history + {} == db.rows.history;
    assert Elements(HistoryList([], 0, height)) == {};
  }

  /** The effect of one transaction's edits on whatever the batch had made of the store. */
  function AfterTx(p: Db, txid: Hash, pos: TxPos, spent: seq<UndoOutput>, made: seq<UndoOutput>, history: seq<HistoryKey>): Db {
    WithHistory(WithCreated(WithoutSpent(WithPosition(p, txid, pos), spent), made), history)
  }

  lemma {:induction false} HistoryPrefix(order: Order, visit: seq<Hash>, height: int, n: nat)
    requires n <= |order|
    ensures HistoryList(order + [visit], n, height) == HistoryList(order, n, height)
  {
    if n > 0 {
      HistoryPrefix(order, visit, height, n - 1);
    }
  }

  lemma {:induction false} PendingDbStep(db: Db, b: Block, height: int, order: Order, visit: seq<Hash>)
    requires |order| < |b.txs|
    ensures var n := |order|;
            PendingDb(db, b, height, order + [visit], n + 1) ==
            AfterTx(PendingDb(db, b, height, order, n), b.txs[n].txid, TxPos(height, n), TxSpent(db.rows, b.txs, n),
                    Created(b.txs[n].txid, b.txs[n].outs, height, b.header.hash),
                    TxHistory(visit, height, n, |HistoryList(order, n, height)|))
  {
    var n := |order|;
    var before := HistoryList(order, n, height);
    var run := TxHistory(visit, height, n, |before|);
    HistoryPrefix(order, visit, height, n);
    assert forall k :: k in before + run <==> k in before || k in run;
    assert Elements(before + run) == Elements(before) + Elements(run);
    assert db.rows.history + Elements(before) + Elements(run) == db.rows.history + Elements(before + run);
  }

  /** The batch with its closing edits: header, txid list, blob, offsets, undo record and checkpoint. */
  function Closed(batch: seq<Edit>, b: Block, height: int, txids: seq<Hash>, blob: Bytes, offsets: seq<nat>,
                  undo: UndoBlock, startHeight: int): seq<Edit> {
    batch + [PutHeader(height, b.header)] + [PutTxids(height, txids)] + [PutBlob(height, blob)] +
    [PutOffsets(height, offsets)] + [PutUndo(UndoKey(height, b.header.hash), undo)] +
    [PutCheckpoint(Checkpoint(height, Some(b.header.hash), startHeight))]
  }

  lemma {:induction false} ClosedCommits(db: Db, batch: seq<Edit>, b: Block, height: int, txids: seq<Hash>, blob: Bytes,
                                         offsets: seq<nat>, undo: UndoBlock, startHeight: int)
    ensures var p := Committed(db, batch);
            Committed(db, Closed(batch, b, height, txids, blob, offsets, undo, startHeight)) ==
            Db(p.rows.(headers := p.rows.headers[height := b.header], txids := p.rows.txids[height := txids]),
               p.undos[UndoKey(height, b.header.hash) := undo], p.txPos, p.blobs[height := blob],
               p.offsets[height := offsets], Checkpoint(height, Some(b.header.hash), startHeight))
  {
    var p := Committed(db, batch);
    var b3 := batch + [PutHeader(height, b.header)] + [PutTxids(height, txids)] + [PutBlob(height, blob)];
    var k, c := UndoKey(height, b.header.hash), Checkpoint(height, Some(b.header.hash), startHeight);
    ThreeMore(db, batch, PutHeader(height, b.header), PutTxids(height, txids), PutBlob(height, blob));
    ThreeMore(db, b3, PutOffsets(height, offsets), PutUndo(k, undo), PutCheckpoint(c));
    ClosedRows(p, b.header, height, txids, blob);
    ClosedRest(Committed(db, b3), k, height, offsets, undo, c);
  }

  lemma {:induction false} ThreeMore(db: Db, batch: seq<Edit>, e: Edit, f: Edit, g: Edit)
    ensures Committed(db, batch + [e] + [f] + [g]) == Edited(Edited(Edited(Committed(db, batch), e), f), g)
  {
    CommittedPlus(db, batch, e);
    CommittedPlus(db, batch + [e], f);
    CommittedPlus(db, batch + [e] + [f], g);
  }

  lemma {:induction false} ClosedRows(p: Db, header: Header, height: int, txids: seq<Hash>, blob: Bytes)
    ensures Edited(Edited(Edited(p, PutHeader(height, header)), PutTxids(height, txids)), PutBlob(height, blob)) ==
            p.(rows := p.rows.(headers := p.rows.headers[height := header], txids := p.rows.txids[height := txids]),
               blobs := p.blobs[height := blob])
  {
  }

  lemma {:induction false} ClosedRest(p: Db, k: UndoKey, height: int, offsets: seq<nat>, undo: UndoBlock, c: Checkpoint)
    ensures Edited(Edited(Edited(p, PutOffsets(height, offsets)), PutUndo(k, undo)), PutCheckpoint(c)) ==
            p.(offsets := p.offsets[height := offsets], undos := p.undos[k := undo], checkpoint := c)
  {
  }

  /** Once every transaction is in, the closed batch indexes the block. */
  lemma {:induction false} PreparedAll(db: Db, b: Block, height: int, order: Order, w: Work, blob: Bytes, offsets: seq<nat>, txids: seq<Hash>,
                    undo: UndoBlock)
    requires Prepared(db, b, height, order, |b.txs|, w) && Packed(b.txs, |b.txs|, blob, offsets, txids)
    requires undo == UndoBlock(height, b.header.hash, b.header.prev, w.spent, w.created, w.history)
    ensures ValidOrder(db.rows, b.txs, order)
    ensures Committed(db, Closed(w.batch, b, height, txids, blob, offsets, undo, db.checkpoint.startHeight)) ==
            IndexDb(db, b, height, order)
  {
    assert UnfoldsAt(|b.txs|);
    assert b.txs[..|b.txs|] == b.txs;
    ClosedCommits(db, w.batch, b, height, txids, blob, offsets, undo, db.checkpoint.startHeight);
  }

  lemma {:induction false} VisitStep(visit: seq<Hash>, done: set<Hash>, sh: Hash, seen0: set<(Hash, Hash)>, txid: Hash)
    requires sh !in done && Enumerates(visit, Unseen(done, txid, seen0))
    ensures (sh, txid) in seen0 ==> Enumerates(visit, Unseen(done + {sh}, txid, seen0))
    ensures (sh, txid) !in seen0 ==> Enumerates(visit + [sh], Unseen(done + {sh}, txid, seen0))
    ensures (sh, txid) in seen0 + Pairs(done, txid) <==> (sh, txid) in seen0
    ensures seen0 + Pairs(done + {sh}, txid) == seen0 + Pairs(done, txid) + {(sh, txid)}
  {
    assert Pairs(done + {sh}, txid) == Pairs(done, txid) + {(sh, txid)};
    if (sh, txid) in seen0 {
      assert Unseen(done + {sh}, txid, seen0) == Unseen(done, txid, seen0);
    } else {
      assert Unseen(done + {sh}, txid, seen0) == Unseen(done, txid, seen0) + {sh};
      assert forall x :: x in visit + [sh] <==> x in visit || x == sh;
    }
  }

  lemma {:induction false} OutputStep(txid: Hash, outs: seq<TxOut>, height: int, hash: Hash, i: nat)
    requires i < |outs|
    ensures Created(txid, outs[..i + 1], height, hash) ==
            Created(txid, outs[..i], height, hash) +
            if Indexable(outs[i])
            then [UndoOutput(outs[i].scripthash, OutPoint(txid, i), outs[i].value, height, hash)] else []
    ensures IndexedScripthashes(outs[..i + 1]) ==
            IndexedScripthashes(outs[..i]) + if Indexable(outs[i]) then {outs[i].scripthash} else {}
  {
    assert outs[..i + 1][..i] == outs[..i];
    assert forall x :: x in outs[..i + 1] <==> x in outs[..i] || x == outs[i];
  }

  lemma {:induction false} InputStep(rows: Rows, ins: seq<TxIn>, i: nat)
    requires i < |ins|
    ensures Spent(rows, ins[..i + 1]) == Spent(rows, ins[..i]) + Lookup(rows, ins[i])
    ensures KnownPrevs(rows, ins[..i + 1]) == KnownPrevs(rows, ins[..i]) +
            if IsCoinbaseInput(ins[i]) || ins[i].prev !in rows.outpoints then {} else {ins[i].prev}
  {
    assert ins[..i + 1][..i] == ins[..i];
    assert forall x :: x in ins[..i + 1] <==> x in ins[..i] || x == ins[i];
  }

  lemma {:induction false} SpentScripthashes(s: seq<UndoOutput>, u: UndoOutput)
    ensures Scripthashes(s + [u]) == Scripthashes(s) + {u.scripthash}
  {
    assert forall x :: x in s + [u] <==> x in s || x == u;
  }

  lemma {:induction false} OutputsRemovedNone(ov: OverlayView)
    ensures OutputsRemoved(ov, {}) == ov
  {
    assert ov.outputs - {} == ov.outputs && ov.spentBy - {} == ov.spentBy;
  }

  lemma {:induction false} WithoutSpentNone(p: Db)
    ensures WithoutSpent(p, []) == p
  {
    assert p.rows.utxos - {} == p.rows.utxos && p.rows.outpoints - {} == p.rows.outpoints;
    assert Keys([]) == {} && Outs([]) == {};
  }

  lemma {:induction false} OutputsRemovedStep(ov: OverlayView, outs: set<OutPoint>, o: OutPoint)
    ensures OutputRemoved(OutputsRemoved(ov, outs), o) == OutputsRemoved(ov, outs + {o})
  {
    assert ov.outputs - outs - {o} == ov.outputs - (outs + {o});
    assert ov.spentBy - outs - {o} == ov.spentBy - (outs + {o});
  }
}
