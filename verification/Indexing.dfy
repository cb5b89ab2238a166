/** What indexing one block writes, and what rolling it back undoes. */
module Indexing {
  import opened Types
  import opened Store

  // ----- one transaction

  /** The undo entry for an input: none unless both of its rows are committed. */
  function Lookup(rows: Rows, txIn: TxIn): seq<UndoOutput> {
    var o := txIn.prev;
    if IsCoinbaseInput(txIn) || o !in rows.outpoints then [] else
    var k := UtxoKey(rows.outpoints[o], o);
    if k !in rows.utxos then [] else
    var v := rows.utxos[k];
    [UndoOutput(k.scripthash, o, v.value, v.height, v.blockHash)]
  }

  function Spent(rows: Rows, ins: seq<TxIn>): seq<UndoOutput> {
    if ins == [] then [] else Spent(rows, ins[..|ins| - 1]) + Lookup(rows, ins[|ins| - 1])
  }

  /** Inputs are skipped in the first transaction of a block. */
  function TxSpent(rows: Rows, txs: seq<Tx>, i: nat): seq<UndoOutput>
    requires i < |txs|
  {
    if i == 0 then [] else Spent(rows, txs[i].ins)
  }

  function Created(txid: Hash, outs: seq<TxOut>, height: int, hash: Hash): seq<UndoOutput> {
    if outs == [] then [] else
    var n := |outs| - 1;
    Created(txid, outs[..n], height, hash) +
    if Indexable(outs[n])
    then [UndoOutput(outs[n].scripthash, OutPoint(txid, n), outs[n].value, height, hash)]
    else []
  }

  function Scripthashes(s: seq<UndoOutput>): set<Hash> {
    set u | u in s :: u.scripthash
  }

  function IndexedScripthashes(outs: seq<TxOut>): set<Hash> {
    set out | out in outs && Indexable(out) :: out.scripthash
  }

  function Touched(rows: Rows, txs: seq<Tx>, i: nat): set<Hash>
    requires i < |txs|
  {
    Scripthashes(TxSpent(rows, txs, i)) + IndexedScripthashes(txs[i].outs)
  }

  /** The scripthashes that get a history row for transaction i: a (scripthash, txid) pair gets only one per block. */
  function NewlyTouched(rows: Rows, txs: seq<Tx>, i: nat): set<Hash>
    requires i < |txs|
  {
    set sh | sh in Touched(rows, txs, i) &&
             forall j :: 0 <= j < i && txs[j].txid == txs[i].txid ==> sh !in Touched(rows, txs, j)
  }

  // ----- the lists an undo record holds, over the first n transactions

  function SpentList(rows: Rows, txs: seq<Tx>, n: nat): seq<UndoOutput>
    requires n <= |txs|
  {
    if n == 0 then [] else SpentList(rows, txs, n - 1) + TxSpent(rows, txs, n - 1)
  }

  function CreatedList(txs: seq<Tx>, n: nat, height: int, hash: Hash): seq<UndoOutput>
    requires n <= |txs|
  {
    if n == 0 then [] else
    CreatedList(txs, n - 1, height, hash) + Created(txs[n - 1].txid, txs[n - 1].outs, height, hash)
  }

  /** The order in which a transaction's scripthashes are visited is arbitrary: order[i] is the one taken for transaction i. */
  type Order = seq<seq<Hash>>

  ghost predicate Enumerates(s: seq<Hash>, elems: set<Hash>) {
    && (forall x :: x in s <==> x in elems)
    && forall i, j :: 0 <= i < j < |s| ==> s[i] != s[j]
  }

  ghost predicate ValidOrder(rows: Rows, txs: seq<Tx>, order: Order) {
    && |order| == |txs|
    && forall i {:trigger Enumerates(order[i], NewlyTouched(rows, txs, i))} ::
         0 <= i < |txs| ==> Enumerates(order[i], NewlyTouched(rows, txs, i))
  }

  function TxHistory(scripthashes: seq<Hash>, height: int, txIndex: nat, base: nat): seq<HistoryKey> {
    seq(|scripthashes|, k requires 0 <= k < |scripthashes| => HistoryKey(scripthashes[k], height, txIndex, base + k))
  }

  function HistoryList(order: Order, n: nat, height: int): seq<HistoryKey>
    requires n <= |order|
  {
    if n == 0 then [] else
    var before := HistoryList(order, n - 1, height);
    before + TxHistory(order[n - 1], height, n - 1, |before|)
  }

  function Elements<T>(s: seq<T>): set<T> {
    set x | x in s
  }

  function Keys(s: seq<UndoOutput>): set<UtxoKey> {
    set u | u in s :: u.Key()
  }

  function Outs(s: seq<UndoOutput>): set<OutPoint> {
    set u | u in s :: u.out
  }

  function PutUtxos(m: map<UtxoKey, UtxoValue>, s: seq<UndoOutput>): map<UtxoKey, UtxoValue> {
    if s == [] then m else
    var u := s[|s| - 1];
    PutUtxos(m, s[..|s| - 1])[u.Key() := u.Row()]
  }

  function PutOutpoints(m: map<OutPoint, Hash>, s: seq<UndoOutput>): map<OutPoint, Hash> {
    if s == [] then m else
    var u := s[|s| - 1];
    PutOutpoints(m, s[..|s| - 1])[u.out := u.scripthash]
  }

  // ----- the batch, transaction by transaction; every lookup reads the committed rows

  function PendingUtxos(rows: Rows, b: Block, height: int, n: nat): map<UtxoKey, UtxoValue>
    requires n <= |b.txs|
  {
    if n == 0 then rows.utxos else
    PutUtxos(PendingUtxos(rows, b, height, n - 1) - Keys(TxSpent(rows, b.txs, n - 1)),
             Created(b.txs[n - 1].txid, b.txs[n - 1].outs, height, b.header.hash))
  }

  function PendingOutpoints(rows: Rows, b: Block, height: int, n: nat): map<OutPoint, Hash>
    requires n <= |b.txs|
  {
    if n == 0 then rows.outpoints else
    PutOutpoints(PendingOutpoints(rows, b, height, n - 1) - Outs(TxSpent(rows, b.txs, n - 1)),
                 Created(b.txs[n - 1].txid, b.txs[n - 1].outs, height, b.header.hash))
  }

  function Txids(txs: seq<Tx>): seq<Hash> {
    seq(|txs|, i requires 0 <= i < |txs| => txs[i].txid)
  }

  function IndexRows(rows: Rows, b: Block, height: int, order: Order): Rows {
    Rows(PendingUtxos(rows, b, height, |b.txs|),
         PendingOutpoints(rows, b, height, |b.txs|),
         rows.history + Elements(HistoryList(order, |order|, height)),
         rows.headers[height := b.header],
         rows.txids[height := Txids(b.txs)])
  }

  function UndoFor(rows: Rows, b: Block, height: int, order: Order): UndoBlock {
    UndoBlock(height, b.header.hash, b.header.prev,
              SpentList(rows, b.txs, |b.txs|),
              CreatedList(b.txs, |b.txs|, height, b.header.hash),
              HistoryList(order, |order|, height))
  }

  function RollbackRows(rows: Rows, undo: UndoBlock, height: int): Rows {
    Rows(PutUtxos(rows.utxos - Keys(undo.created), undo.spent),
         PutOutpoints(rows.outpoints - Outs(undo.created), undo.spent),
         rows.history - Elements(undo.history),
         rows.headers - {height},
         rows.txids - {height})
  }

  // ----- rollback undoes indexing

  /** No row that `undo` says a block creates was there before, unless the block also spends it. */
  ghost predicate Restorable(rows: Rows, undo: UndoBlock, height: int) {
    && (forall c {:trigger c in undo.created} :: c in undo.created && c.Key() in rows.utxos ==> c.Key() in Keys(undo.spent))
    && (forall c {:trigger c in undo.created} :: c in undo.created && c.out in rows.outpoints ==> c.out in Outs(undo.spent))
    && (forall k {:trigger k in undo.history} :: k in undo.history ==> k !in rows.history)
    && height !in rows.headers
    && height !in rows.txids
  }

  /** What is known of every entry of an undo record's spent list. */
  ghost predicate Backed(rows: Rows, u: UndoOutput) {
    && u.out in rows.outpoints
    && rows.outpoints[u.out] == u.scripthash
    && u.Key() in rows.utxos
    && rows.utxos[u.Key()] == u.Row()
  }

  lemma {:induction false} SpentBacked(rows: Rows, ins: seq<TxIn>)
    ensures forall u :: u in Spent(rows, ins) ==> Backed(rows, u)
  {
    if ins != [] {
      SpentBacked(rows, ins[..|ins| - 1]);
    }
  }

  lemma {:induction false} SpentListBacked(rows: Rows, txs: seq<Tx>, n: nat)
    requires n <= |txs|
    ensures forall u :: u in SpentList(rows, txs, n) ==> Backed(rows, u)
  {
    if n > 0 {
      SpentListBacked(rows, txs, n - 1);
      SpentBacked(rows, txs[n - 1].ins);
    }
  }

  /** A row written by PutUtxos is one of the entries; the others are as before. */
  lemma {:induction false} PutUtxosAt(m: map<UtxoKey, UtxoValue>, s: seq<UndoOutput>, k: UtxoKey)
    ensures k in PutUtxos(m, s) <==> k in m || k in Keys(s)
    ensures k !in Keys(s) && k in m ==> PutUtxos(m, s)[k] == m[k]
    ensures k in Keys(s) ==> exists u :: u in s && u.Key() == k && PutUtxos(m, s)[k] == u.Row()
  {
    if s != [] {
      var t, u := s[..|s| - 1], s[|s| - 1];
      PutUtxosAt(m, t, k);
      assert forall x :: x in s <==> x in t || x == u;
      if k != u.Key() && k in Keys(s) {
        assert k in Keys(t);
        var x :| x in t && x.Key() == k && PutUtxos(m, t)[k] == x.Row();
        assert x in s;
      } else if k == u.Key() {
        assert u in s;
      }
    }
  }

  lemma {:induction false} PutOutpointsAt(m: map<OutPoint, Hash>, s: seq<UndoOutput>, o: OutPoint)
    ensures o in PutOutpoints(m, s) <==> o in m || o in Outs(s)
    ensures o !in Outs(s) && o in m ==> PutOutpoints(m, s)[o] == m[o]
    ensures o in Outs(s) ==> exists u :: u in s && u.out == o && PutOutpoints(m, s)[o] == u.scripthash
  {
    if s != [] {
      var t, u := s[..|s| - 1], s[|s| - 1];
      PutOutpointsAt(m, t, o);
      assert forall x :: x in s <==> x in t || x == u;
      if o != u.out && o in Outs(s) {
        assert o in Outs(t);
        var x :| x in t && x.out == o && PutOutpoints(m, t)[o] == x.scripthash;
        assert x in s;
      } else if o == u.out {
        assert u in s;
      }
    }
  }

  /** Rows that the block neither creates nor spends are untouched by the batch. */
  lemma {:induction false} PendingUtxosFrame(rows: Rows, b: Block, height: int, n: nat, k: UtxoKey)
    requires n <= |b.txs|
    requires k !in Keys(SpentList(rows, b.txs, n))
    requires k !in Keys(CreatedList(b.txs, n, height, b.header.hash))
    ensures k in PendingUtxos(rows, b, height, n) <==> k in rows.utxos
    ensures k in rows.utxos ==> PendingUtxos(rows, b, height, n)[k] == rows.utxos[k]
  {
    if n > 0 {
      var spent := TxSpent(rows, b.txs, n - 1);
      var made := Created(b.txs[n - 1].txid, b.txs[n - 1].outs, height, b.header.hash);
      assert forall u :: u in spent || u in SpentList(rows, b.txs, n - 1) ==> u in SpentList(rows, b.txs, n);
      assert forall u :: u in made || u in CreatedList(b.txs, n - 1, height, b.header.hash)
                         ==> u in CreatedList(b.txs, n, height, b.header.hash);
      PendingUtxosFrame(rows, b, height, n - 1, k);
      PutUtxosAt(PendingUtxos(rows, b, height, n - 1) - Keys(spent), made, k);
    }
  }

  lemma {:induction false} PendingOutpointsFrame(rows: Rows, b: Block, height: int, n: nat, o: OutPoint)
    requires n <= |b.txs|
    requires o !in Outs(SpentList(rows, b.txs, n))
    requires o !in Outs(CreatedList(b.txs, n, height, b.header.hash))
    ensures o in PendingOutpoints(rows, b, height, n) <==> o in rows.outpoints
    ensures o in rows.outpoints ==> PendingOutpoints(rows, b, height, n)[o] == rows.outpoints[o]
  {
    if n > 0 {
      var spent := TxSpent(rows, b.txs, n - 1);
      var made := Created(b.txs[n - 1].txid, b.txs[n - 1].outs, height, b.header.hash);
      assert forall u :: u in spent || u in SpentList(rows, b.txs, n - 1) ==> u in SpentList(rows, b.txs, n);
      assert forall u :: u in made || u in CreatedList(b.txs, n - 1, height, b.header.hash)
                         ==> u in CreatedList(b.txs, n, height, b.header.hash);
      PendingOutpointsFrame(rows, b, height, n - 1, o);
      PutOutpointsAt(PendingOutpoints(rows, b, height, n - 1) - Outs(spent), made, o);
    }
  }

  /** The UTXO row k after index and rollback, for every k. */
  lemma {:induction false} UtxoAfterRollback(rows: Rows, b: Block, height: int, order: Order, k: UtxoKey)
    ensures var undo := UndoFor(rows, b, height, order);
            var back := RollbackRows(IndexRows(rows, b, height, order), undo, height).utxos;
            && (k in back <==> k in rows.utxos && (k in Keys(undo.created) ==> k in Keys(undo.spent)))
            && (k in back ==> back[k] == rows.utxos[k])
  {
    var undo := UndoFor(rows, b, height, order);
    var mid := PendingUtxos(rows, b, height, |b.txs|);
    PutUtxosAt(mid - Keys(undo.created), undo.spent, k);
    SpentListBacked(rows, b.txs, |b.txs|);
    if k !in Keys(undo.spent) && k !in Keys(undo.created) {
      PendingUtxosFrame(rows, b, height, |b.txs|, k);
    }
  }

  lemma {:induction false} OutpointAfterRollback(rows: Rows, b: Block, height: int, order: Order, o: OutPoint)
    ensures var undo := UndoFor(rows, b, height, order);
            var back := RollbackRows(IndexRows(rows, b, height, order), undo, height).outpoints;
            && (o in back <==> o in rows.outpoints && (o in Outs(undo.created) ==> o in Outs(undo.spent)))
            && (o in back ==> back[o] == rows.outpoints[o])
  {
    var undo := UndoFor(rows, b, height, order);
    var mid := PendingOutpoints(rows, b, height, |b.txs|);
    PutOutpointsAt(mid - Outs(undo.created), undo.spent, o);
    SpentListBacked(rows, b.txs, |b.txs|);
    if o !in Outs(undo.spent) && o !in Outs(undo.created) {
      PendingOutpointsFrame(rows, b, height, |b.txs|, o);
    }
  }

  /** Rolling a block back restores every keyspace exactly when nothing it wrote was there before, bar what it spent. */
  lemma {:induction false} RollbackInvertsIndex(rows: Rows, b: Block, height: int, order: Order)
    ensures RollbackRows(IndexRows(rows, b, height, order), UndoFor(rows, b, height, order), height) == rows
       <==> Restorable(rows, UndoFor(rows, b, height, order), height)
  {
    var undo := UndoFor(rows, b, height, order);
    var back := RollbackRows(IndexRows(rows, b, height, order), undo, height);
    forall k ensures && (k in back.utxos <==> k in rows.utxos && (k in Keys(undo.created) ==> k in Keys(undo.spent)))
                     && (k in back.utxos ==> back.utxos[k] == rows.utxos[k])
    {
      UtxoAfterRollback(rows, b, height, order, k);
    }
    forall o ensures && (o in back.outpoints <==> o in rows.outpoints && (o in Outs(undo.created) ==> o in Outs(undo.spent)))
                     && (o in back.outpoints ==> back.outpoints[o] == rows.outpoints[o])
    {
      OutpointAfterRollback(rows, b, height, order, o);
    }
    assert height !in back.headers && height !in back.txids;
    assert forall k :: k in undo.history ==> k !in back.history;
    if Restorable(rows, undo, height) {
      assert back.utxos == rows.utxos;
      assert back.outpoints == rows.outpoints;
      assert back.history == rows.history;
      assert back.headers == rows.headers;
      assert back.txids == rows.txids;
    } else if back == rows {
      forall c | c in undo.created ensures c.Key() in Keys(undo.created) && c.out in Outs(undo.created) {
      }
      assert false;
    }
  }
}
