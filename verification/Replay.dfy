/** Rows as a replay of the current chain: what they hold, and that rollback steps back through it. */
module Replay {
  import opened Types
  import opened Store
  import opened Indexing

  /** An indexed block, with the order in which its history rows were numbered. */
  datatype Entry = Entry(block: Block, order: Order)

  /** The rows after indexing the first n entries into an empty store, the first of them at height `start`. */
  function Rebuild(chain: seq<Entry>, start: int, n: nat): Rows
    requires n <= |chain|
  {
    if n == 0 then EMPTY_ROWS else
    IndexRows(Rebuild(chain, start, n - 1), chain[n - 1].block, start + n - 1, chain[n - 1].order)
  }

  /** The undo record written for entry i. */
  function UndoAt(chain: seq<Entry>, start: int, i: nat): UndoBlock
    requires i < |chain|
  {
    UndoFor(Rebuild(chain, start, i), chain[i].block, start + i, chain[i].order)
  }

  function ChainTxids(chain: seq<Entry>, n: nat): set<Hash>
    requires n <= |chain|
  {
    if n == 0 then {} else ChainTxids(chain, n - 1) + Elements(Txids(chain[n - 1].block.txs))
  }

  ghost predicate DistinctTxids(txs: seq<Tx>) {
    forall i, j :: 0 <= i < j < |txs| ==> txs[i].txid != txs[j].txid
  }

  /** The block's transaction ids are distinct and new to the chain (BIP 30 and BIP 34). */
  ghost predicate Fresh(txs: seq<Tx>, txids: set<Hash>) {
    && DistinctTxids(txs)
    && forall t {:trigger t in txs} :: t in txs ==> t.txid !in txids
  }

  ghost predicate UniqueTxids(chain: seq<Entry>) {
    forall i {:trigger ChainTxids(chain, i)} :: 0 <= i < |chain| ==> Fresh(chain[i].block.txs, ChainTxids(chain, i))
  }

  ghost predicate NumberedAt(chain: seq<Entry>, start: int, i: nat)
    requires i < |chain|
  {
    ValidOrder(Rebuild(chain, start, i), chain[i].block.txs, chain[i].order)
  }

  /** Every entry numbers its history rows by some enumeration of the scripthashes it touches. */
  ghost predicate Ordered(chain: seq<Entry>, start: int) {
    forall i {:trigger NumberedAt(chain, start, i)} :: 0 <= i < |chain| ==> NumberedAt(chain, start, i)
  }

  /** What is built from the first n entries does not depend on the rest. */
  lemma {:induction false} PrefixOnly(chain: seq<Entry>, other: seq<Entry>, start: int, n: nat)
    requires n <= |chain| && n <= |other| && chain[..n] == other[..n]
    ensures Rebuild(chain, start, n) == Rebuild(other, start, n)
    ensures ChainTxids(chain, n) == ChainTxids(other, n)
  {
    if n > 0 {
      assert chain[..n - 1] == chain[..n][..n - 1] == other[..n][..n - 1] == other[..n - 1];
      assert chain[n - 1] == chain[..n][n - 1] == other[..n][n - 1] == other[n - 1];
      PrefixOnly(chain, other, start, n - 1);
    }
  }

  // ----- what an output is, and what spends it

  /** The block makes `o` as the indexable output `out`. */
  ghost predicate Makes(txs: seq<Tx>, o: OutPoint, out: TxOut) {
    exists t :: 0 <= t < |txs| && txs[t].txid == o.txid && o.vout < |txs[t].outs| &&
                txs[t].outs[o.vout] == out && Indexable(out)
  }

  /** Some transaction of the block other than its first has `o` as an input. */
  ghost predicate Spends(txs: seq<Tx>, o: OutPoint) {
    SpendsWithin(txs, |txs|, o)
  }

  // ----- the invariant both directions keep

  /** The outpoint row for o names sh exactly when the UTXO row (sh, o) exists. */
  ghost predicate Agreement(rows: Rows) {
    forall sh, o :: UtxoKey(sh, o) in rows.utxos <==> o in rows.outpoints && rows.outpoints[o] == sh
  }

  lemma {:induction false} CreatedExact(txid: Hash, outs: seq<TxOut>, height: int, hash: Hash, u: UndoOutput)
    ensures u in Created(txid, outs, height, hash) <==>
            && u.out.txid == txid && u.out.vout < |outs| && Indexable(outs[u.out.vout])
            && u == UndoOutput(outs[u.out.vout].scripthash, u.out, outs[u.out.vout].value, height, hash)
  {
    if outs != [] {
      CreatedExact(txid, outs[..|outs| - 1], height, hash, u);
    }
  }

  lemma {:induction false} CreatedListExact(txs: seq<Tx>, n: nat, height: int, hash: Hash, u: UndoOutput)
    requires n <= |txs|
    ensures u in CreatedList(txs, n, height, hash) <==>
            exists t :: 0 <= t < n && u in Created(txs[t].txid, txs[t].outs, height, hash)
  {
    if n > 0 {
      CreatedListExact(txs, n - 1, height, hash, u);
    }
  }

  /** The undo record's created list is the block's indexable outputs. */
  lemma {:induction false} CreatedIsMakes(txs: seq<Tx>, height: int, hash: Hash, u: UndoOutput)
    ensures u in CreatedList(txs, |txs|, height, hash) <==>
            exists out :: Makes(txs, u.out, out) && u == UndoOutput(out.scripthash, u.out, out.value, height, hash)
  {
    CreatedListExact(txs, |txs|, height, hash, u);
    forall t | 0 <= t < |txs|
      ensures u in Created(txs[t].txid, txs[t].outs, height, hash) <==>
              && u.out.txid == txs[t].txid && u.out.vout < |txs[t].outs| && Indexable(txs[t].outs[u.out.vout])
              && u == UndoOutput(txs[t].outs[u.out.vout].scripthash, u.out, txs[t].outs[u.out.vout].value, height, hash)
    {
      CreatedExact(txs[t].txid, txs[t].outs, height, hash, u);
    }
    if u in CreatedList(txs, |txs|, height, hash) {
      var t :| 0 <= t < |txs| && u in Created(txs[t].txid, txs[t].outs, height, hash);
      assert Makes(txs, u.out, txs[t].outs[u.out.vout]);
    }
  }

  lemma {:induction false} SpentExact(rows: Rows, ins: seq<TxIn>, u: UndoOutput)
    ensures u in Spent(rows, ins) <==> HasInput(ins, u.out) && Backed(rows, u)
  {
    if ins != [] {
      var init := ins[..|ins| - 1];
      SpentExact(rows, init, u);
      assert forall x :: x in ins <==> x in init || x == ins[|ins| - 1];
    }
  }

  /** One of the first n transactions, other than the first of all, has `o` as an input. */
  ghost predicate SpendsWithin(txs: seq<Tx>, n: nat, o: OutPoint)
    requires n <= |txs|
  {
    exists t {:trigger HasInput(txs[t].ins, o)} :: 1 <= t < n && HasInput(txs[t].ins, o)
  }

  lemma {:induction false} SpentListExact(rows: Rows, txs: seq<Tx>, n: nat, u: UndoOutput)
    requires n <= |txs|
    ensures u in SpentList(rows, txs, n) <==> Backed(rows, u) && SpendsWithin(txs, n, u.out)
  {
    if n > 0 {
      SpentListExact(rows, txs, n - 1, u);
      SpentExact(rows, txs[n - 1].ins, u);
      SpendsStep(txs, n, u.out);
      assert u in SpentList(rows, txs, n) <==> u in SpentList(rows, txs, n - 1) || u in TxSpent(rows, txs, n - 1);
    }
  }

  lemma {:induction false} SpendsStep(txs: seq<Tx>, n: nat, o: OutPoint)
    requires 0 < n <= |txs|
    ensures SpendsWithin(txs, n, o) <==> SpendsWithin(txs, n - 1, o) || (n > 1 && HasInput(txs[n - 1].ins, o))
  {
    if SpendsWithin(txs, n - 1, o) {
      var t :| 1 <= t < n - 1 && HasInput(txs[t].ins, o);
      assert SpendsWithin(txs, n, o);
    }
  }

  /** The undo entry for a row, whatever block it came from. */
  function AsUndo(rows: Rows, k: UtxoKey): UndoOutput
    requires k in rows.utxos
  {
    var v := rows.utxos[k];
    UndoOutput(k.scripthash, k.out, v.value, v.height, v.blockHash)
  }

  /** The rows an undo record lists as spent are exactly the committed rows that the block spends. */
  lemma {:induction false} SpentIsSpends(rows: Rows, txs: seq<Tx>, k: UtxoKey)
    requires Agreement(rows)
    ensures k in Keys(SpentList(rows, txs, |txs|)) <==> k in rows.utxos && Spends(txs, k.out)
  {
    if k in Keys(SpentList(rows, txs, |txs|)) {
      var u :| u in SpentList(rows, txs, |txs|) && u.Key() == k;
      SpentListExact(rows, txs, |txs|, u);
    } else if k in rows.utxos {
      assert k == UtxoKey(k.scripthash, k.out);
      assert Backed(rows, AsUndo(rows, k));
      SpentListExact(rows, txs, |txs|, AsUndo(rows, k));
      assert AsUndo(rows, k).Key() == k;
    }
  }

  // ----- the rows after one block whose transaction ids are new

  ghost predicate NewTxids(rows: Rows, txs: seq<Tx>) {
    forall o, t {:trigger o in rows.outpoints, t in txs} :: o in rows.outpoints && t in txs ==> t.txid != o.txid
  }

  lemma {:induction false} CreatedIsNew(rows: Rows, b: Block, height: int, n: nat, u: UndoOutput)
    requires n <= |b.txs| && NewTxids(rows, b.txs)
    requires u in CreatedList(b.txs, n, height, b.header.hash)
    ensures u.out !in rows.outpoints
  {
    CreatedListExact(b.txs, n, height, b.header.hash, u);
    var t :| 0 <= t < n && u in Created(b.txs[t].txid, b.txs[t].outs, height, b.header.hash);
    CreatedExact(b.txs[t].txid, b.txs[t].outs, height, b.header.hash, u);
    assert b.txs[t] in b.txs;
  }

  /** A key is pending after n transactions when it was there and not spent, or was made. */
  lemma {:induction false} PendingUtxosExact(rows: Rows, b: Block, height: int, n: nat, k: UtxoKey)
    requires n <= |b.txs| && Agreement(rows) && NewTxids(rows, b.txs)
    ensures k in PendingUtxos(rows, b, height, n) <==>
            || (k in rows.utxos && k !in Keys(SpentList(rows, b.txs, n)))
            || k in Keys(CreatedList(b.txs, n, height, b.header.hash))
    ensures k in Keys(CreatedList(b.txs, n, height, b.header.hash)) ==>
            exists u :: u in CreatedList(b.txs, n, height, b.header.hash) && u.Key() == k &&
                        PendingUtxos(rows, b, height, n)[k] == u.Row()
  {
    if n > 0 {
      var spent := TxSpent(rows, b.txs, n - 1);
      var made := Created(b.txs[n - 1].txid, b.txs[n - 1].outs, height, b.header.hash);
      var init := CreatedList(b.txs, n - 1, height, b.header.hash);
      PendingUtxosExact(rows, b, height, n - 1, k);
      PutUtxosAt(PendingUtxos(rows, b, height, n - 1) - Keys(spent), made, k);
      KeysPlus(SpentList(rows, b.txs, n - 1), spent);
      KeysPlus(init, made);
      if k in Keys(spent) {
        SpentBacked(rows, b.txs[n - 1].ins);
        if k in Keys(init + made) {
          var u: UndoOutput :| u in init + made && u.Key() == k;
          CreatedIsNew(rows, b, height, n, u);
        }
      }
      if k in Keys(made) {
        var u: UndoOutput :| u in made && u.Key() == k && PendingUtxos(rows, b, height, n)[k] == u.Row();
        assert u in init + made;
      } else if k in Keys(init) {
        var u: UndoOutput :| u in init && u.Key() == k && PendingUtxos(rows, b, height, n - 1)[k] == u.Row();
        assert u in init + made;
      }
    }
  }

  lemma {:induction false} KeysPlus(s: seq<UndoOutput>, t: seq<UndoOutput>)
    ensures Keys(s + t) == Keys(s) + Keys(t)
    ensures Outs(s + t) == Outs(s) + Outs(t)
  {
    assert forall u :: u in s + t <==> u in s || u in t;
  }

  lemma {:induction false} PendingOutpointsExact(rows: Rows, b: Block, height: int, n: nat, o: OutPoint)
    requires n <= |b.txs| && Agreement(rows) && NewTxids(rows, b.txs)
    ensures o in PendingOutpoints(rows, b, height, n) <==>
            || (o in rows.outpoints && o !in Outs(SpentList(rows, b.txs, n)))
            || o in Outs(CreatedList(b.txs, n, height, b.header.hash))
    ensures o in Outs(CreatedList(b.txs, n, height, b.header.hash)) ==>
            exists u :: u in CreatedList(b.txs, n, height, b.header.hash) && u.out == o &&
                        PendingOutpoints(rows, b, height, n)[o] == u.scripthash
    ensures o in PendingOutpoints(rows, b, height, n) && o !in Outs(CreatedList(b.txs, n, height, b.header.hash)) ==>
            PendingOutpoints(rows, b, height, n)[o] == rows.outpoints[o]
  {
    if n > 0 {
      var spent := TxSpent(rows, b.txs, n - 1);
      var made := Created(b.txs[n - 1].txid, b.txs[n - 1].outs, height, b.header.hash);
      var init := CreatedList(b.txs, n - 1, height, b.header.hash);
      PendingOutpointsExact(rows, b, height, n - 1, o);
      PutOutpointsAt(PendingOutpoints(rows, b, height, n - 1) - Outs(spent), made, o);
      KeysPlus(SpentList(rows, b.txs, n - 1), spent);
      KeysPlus(init, made);
      if o in Outs(spent) {
        SpentBacked(rows, b.txs[n - 1].ins);
        if o in Outs(init + made) {
          var u: UndoOutput :| u in init + made && u.out == o;
          CreatedIsNew(rows, b, height, n, u);
        }
      }
      if o in Outs(made) {
        var u: UndoOutput :| u in made && u.out == o && PendingOutpoints(rows, b, height, n)[o] == u.scripthash;
        assert u in init + made;
      } else if o in Outs(init) {
        var u: UndoOutput :| u in init && u.out == o && PendingOutpoints(rows, b, height, n - 1)[o] == u.scripthash;
        assert u in init + made;
      }
    }
  }

  /** With distinct transaction ids an outpoint is made once, so its created entry is unique. */
  lemma {:induction false} CreatedUnique(txs: seq<Tx>, height: int, hash: Hash, u: UndoOutput, v: UndoOutput)
    requires DistinctTxids(txs)
    requires u in CreatedList(txs, |txs|, height, hash) && v in CreatedList(txs, |txs|, height, hash)
    requires u.out == v.out
    ensures u == v
  {
    CreatedListExact(txs, |txs|, height, hash, u);
    CreatedListExact(txs, |txs|, height, hash, v);
    var s :| 0 <= s < |txs| && u in Created(txs[s].txid, txs[s].outs, height, hash);
    var t :| 0 <= t < |txs| && v in Created(txs[t].txid, txs[t].outs, height, hash);
    CreatedExact(txs[s].txid, txs[s].outs, height, hash, u);
    CreatedExact(txs[t].txid, txs[t].outs, height, hash, v);
  }

  /** Indexing a block with new, distinct transaction ids keeps the two output keyspaces in agreement. */
  lemma {:induction false} IndexKeepsAgreement(rows: Rows, b: Block, height: int, order: Order)
    requires Agreement(rows) && NewTxids(rows, b.txs) && DistinctTxids(b.txs)
    ensures Agreement(IndexRows(rows, b, height, order))
  {
    var after := IndexRows(rows, b, height, order);
    forall sh, o
      ensures UtxoKey(sh, o) in after.utxos <==> o in after.outpoints && after.outpoints[o] == sh
    {
      AgreementAt(rows, b, height, sh, o);
    }
  }

  lemma {:induction false} AgreementAt(rows: Rows, b: Block, height: int, sh: Hash, o: OutPoint)
    requires Agreement(rows) && NewTxids(rows, b.txs) && DistinctTxids(b.txs)
    ensures UtxoKey(sh, o) in PendingUtxos(rows, b, height, |b.txs|) <==>
            && o in PendingOutpoints(rows, b, height, |b.txs|)
            && PendingOutpoints(rows, b, height, |b.txs|)[o] == sh
  {
    var k := UtxoKey(sh, o);
    var spent, made := SpentList(rows, b.txs, |b.txs|), CreatedList(b.txs, |b.txs|, height, b.header.hash);
    PendingUtxosExact(rows, b, height, |b.txs|, k);
    PendingOutpointsExact(rows, b, height, |b.txs|, o);
    SpentListBacked(rows, b.txs, |b.txs|);
    if o in Outs(made) {
      var u :| u in made && u.out == o && PendingOutpoints(rows, b, height, |b.txs|)[o] == u.scripthash;
      CreatedIsNew(rows, b, height, |b.txs|, u);
      if k in Keys(made) {
        var v :| v in made && v.Key() == k;
        CreatedUnique(b.txs, height, b.header.hash, u, v);
      } else {
        assert u.Key() != k;
      }
    } else {
      assert k !in Keys(made);
      if o in Outs(spent) {
        var u :| u in spent && u.out == o;
        assert Backed(rows, u);
        assert k in rows.utxos ==> u.Key() == k;
      } else {
        assert k !in Keys(spent);
      }
    }
  }

  /** The UTXO rows after a block: those it did not spend, and those it made. */
  lemma {:induction false} IndexedUtxo(rows: Rows, b: Block, height: int, order: Order, k: UtxoKey, v: UtxoValue)
    requires Agreement(rows) && NewTxids(rows, b.txs) && DistinctTxids(b.txs)
    ensures Holds(IndexRows(rows, b, height, order).utxos, k, v) <==>
            || (Holds(rows.utxos, k, v) && !Spends(b.txs, k.out))
            || MadeRow(b, height, k, v)
  {
    var made := CreatedList(b.txs, |b.txs|, height, b.header.hash);
    var w := UndoOutput(k.scripthash, k.out, v.value, v.height, v.blockHash);
    PendingUtxosExact(rows, b, height, |b.txs|, k);
    SpentIsSpends(rows, b.txs, k);
    CreatedIsMakes(b.txs, height, b.header.hash, w);
    assert w in made <==> MadeRow(b, height, k, v);
    assert w in made ==> w.Key() in Keys(made);
    if k in Keys(made) {
      var u :| u in made && u.Key() == k && PendingUtxos(rows, b, height, |b.txs|)[k] == u.Row();
      CreatedIsNew(rows, b, height, |b.txs|, u);
      assert k == UtxoKey(k.scripthash, k.out);
      if w in made {
        CreatedUnique(b.txs, height, b.header.hash, u, w);
      }
    } else {
      UntouchedValue(rows, b, height, k);
    }
  }

  /** v is the row that a block at this height writes for output k. */
  ghost predicate MadeRow(b: Block, height: int, k: UtxoKey, v: UtxoValue) {
    exists out :: Makes(b.txs, k.out, out) && k.scripthash == out.scripthash &&
                  v == UtxoValue(out.value, height, b.header.hash)
  }

  lemma {:induction false} UntouchedValue(rows: Rows, b: Block, height: int, k: UtxoKey)
    requires Agreement(rows) && NewTxids(rows, b.txs)
    requires k !in Keys(CreatedList(b.txs, |b.txs|, height, b.header.hash))
    ensures k in PendingUtxos(rows, b, height, |b.txs|) ==>
            k in rows.utxos && PendingUtxos(rows, b, height, |b.txs|)[k] == rows.utxos[k]
  {
    PendingUtxosExact(rows, b, height, |b.txs|, k);
    if k in PendingUtxos(rows, b, height, |b.txs|) {
      PendingUtxosFrame(rows, b, height, |b.txs|, k);
    }
  }

  // ----- what holds of every rebuilt store

  /** Every indexed outpoint belongs to one of these transactions. */
  ghost predicate Rooted(rows: Rows, txids: set<Hash>) {
    forall o {:trigger o in rows.outpoints} :: o in rows.outpoints ==> o.txid in txids
  }

  /** Rows keyed by height cover exactly [lo, hi), and history rows lie in it. */
  ghost predicate Spanning(rows: Rows, lo: int, hi: int) {
    && (forall k {:trigger k in rows.history} :: k in rows.history ==> lo <= k.height < hi)
    && (forall h :: h in rows.headers <==> lo <= h < hi)
    && (forall h :: h in rows.txids <==> lo <= h < hi)
  }

  lemma {:induction false} HistoryHeights(order: Order, n: nat, height: int)
    requires n <= |order|
    ensures forall k :: k in HistoryList(order, n, height) ==> k.height == height
  {
    if n > 0 {
      HistoryHeights(order, n - 1, height);
    }
  }

  lemma {:induction false} SpanningStep(rows: Rows, lo: int, hi: int, b: Block, order: Order)
    requires Spanning(rows, lo, hi) && lo <= hi
    ensures Spanning(IndexRows(rows, b, hi, order), lo, hi + 1)
  {
    HistoryHeights(order, |order|, hi);
  }

  lemma {:induction false} RootedStep(rows: Rows, txids: set<Hash>, b: Block, height: int, order: Order)
    requires Rooted(rows, txids) && Agreement(rows) && NewTxids(rows, b.txs)
    ensures Rooted(IndexRows(rows, b, height, order), txids + Elements(Txids(b.txs)))
  {
    forall o | o in IndexRows(rows, b, height, order).outpoints
      ensures o.txid in txids + Elements(Txids(b.txs))
    {
      OutpointOrigin(rows, b, height, o);
    }
  }

  lemma {:induction false} NewInChain(rows: Rows, txids: set<Hash>, txs: seq<Tx>)
    requires Rooted(rows, txids) && Fresh(txs, txids)
    ensures NewTxids(rows, txs)
  {
  }

  lemma {:induction false} RebuildSettled(chain: seq<Entry>, start: int, n: nat)
    requires UniqueTxids(chain) && n <= |chain|
    ensures Agreement(Rebuild(chain, start, n))
    ensures Rooted(Rebuild(chain, start, n), ChainTxids(chain, n))
    ensures Spanning(Rebuild(chain, start, n), start, start + n)
  {
    if n > 0 {
      RebuildSettled(chain, start, n - 1);
      SettledStep(Rebuild(chain, start, n - 1), ChainTxids(chain, n - 1), start, start + n - 1, chain[n - 1]);
    }
  }

  lemma {:induction false} SettledStep(rows: Rows, txids: set<Hash>, lo: int, hi: int, e: Entry)
    requires Agreement(rows) && Rooted(rows, txids) && Spanning(rows, lo, hi) && lo <= hi
    requires Fresh(e.block.txs, txids)
    ensures var after := IndexRows(rows, e.block, hi, e.order);
            && Agreement(after)
            && Rooted(after, txids + Elements(Txids(e.block.txs)))
            && Spanning(after, lo, hi + 1)
  {
    NewInChain(rows, txids, e.block.txs);
    IndexKeepsAgreement(rows, e.block, hi, e.order);
    RootedStep(rows, txids, e.block, hi, e.order);
    SpanningStep(rows, lo, hi, e.block, e.order);
  }

  lemma {:induction false} OutpointOrigin(rows: Rows, b: Block, height: int, o: OutPoint)
    requires Agreement(rows) && NewTxids(rows, b.txs)
    requires o in PendingOutpoints(rows, b, height, |b.txs|)
    ensures o in rows.outpoints || o.txid in Elements(Txids(b.txs))
  {
    PendingOutpointsExact(rows, b, height, |b.txs|, o);
    if o !in rows.outpoints {
      var u :| u in CreatedList(b.txs, |b.txs|, height, b.header.hash) && u.out == o;
      CreatedListExact(b.txs, |b.txs|, height, b.header.hash, u);
      var t :| 0 <= t < |b.txs| && u in Created(b.txs[t].txid, b.txs[t].outs, height, b.header.hash);
      CreatedExact(b.txs[t].txid, b.txs[t].outs, height, b.header.hash, u);
      assert Txids(b.txs)[t] == o.txid;
    }
  }

  /** The same facts about rows that are known to be a rebuild. */
  lemma {:induction false} KnownSettled(chain: seq<Entry>, start: int, n: nat, rows: Rows, txids: set<Hash>)
    requires UniqueTxids(chain) && n <= |chain|
    requires rows == Rebuild(chain, start, n) && txids == ChainTxids(chain, n)
    ensures Agreement(rows) && Rooted(rows, txids) && Spanning(rows, start, start + n)
    ensures n < |chain| ==> Fresh(chain[n].block.txs, txids)
  {
    RebuildSettled(chain, start, n);
  }

  /** Rolling back entry n of a chain leaves exactly the rows of the chain before it. */
  lemma {:induction false} RollbackIsReplay(chain: seq<Entry>, start: int, n: nat)
    requires UniqueTxids(chain) && n < |chain|
    ensures RollbackRows(Rebuild(chain, start, n + 1), UndoAt(chain, start, n), start + n) == Rebuild(chain, start, n)
  {
    RebuildInvertible(chain, start, n);
    assert StepsBack(Rebuild(chain, start, n), chain[n], start + n);
  }

  ghost predicate StepsBack(rows: Rows, e: Entry, height: int) {
    RollbackRows(IndexRows(rows, e.block, height, e.order), UndoFor(rows, e.block, height, e.order), height) == rows
  }

  /** Any block with new transaction ids can be indexed at this height and rolled back. */
  ghost predicate Invertible(rows: Rows, txids: set<Hash>, height: int) {
    forall e: Entry {:trigger StepsBack(rows, e, height)} :: Fresh(e.block.txs, txids) ==> StepsBack(rows, e, height)
  }

  lemma {:induction false} RebuildInvertible(chain: seq<Entry>, start: int, n: nat)
    requires UniqueTxids(chain) && n <= |chain|
    ensures Invertible(Rebuild(chain, start, n), ChainTxids(chain, n), start + n)
  {
    RebuildSettled(chain, start, n);
    SettledInvertible(Rebuild(chain, start, n), ChainTxids(chain, n), start, start + n);
  }

  lemma {:induction false} SettledInvertible(rows: Rows, txids: set<Hash>, lo: int, hi: int)
    requires Agreement(rows) && Rooted(rows, txids) && Spanning(rows, lo, hi)
    ensures Invertible(rows, txids, hi)
  {
    forall e: Entry | Fresh(e.block.txs, txids) ensures StepsBack(rows, e, hi) {
      RollbackStep(rows, txids, lo, hi, e);
    }
  }

  lemma {:induction false} RollbackStep(rows: Rows, txids: set<Hash>, lo: int, hi: int, e: Entry)
    requires Agreement(rows) && Rooted(rows, txids) && Spanning(rows, lo, hi)
    requires Fresh(e.block.txs, txids)
    ensures StepsBack(rows, e, hi)
  {
    NewInChain(rows, txids, e.block.txs);
    NewIsRestorable(rows, lo, e.block, hi, e.order);
    RollbackInvertsIndex(rows, e.block, hi, e.order);
  }

  lemma {:induction false} NewIsRestorable(rows: Rows, lo: int, b: Block, height: int, order: Order)
    requires Agreement(rows) && NewTxids(rows, b.txs) && Spanning(rows, lo, height)
    ensures Restorable(rows, UndoFor(rows, b, height, order), height)
  {
    var undo := UndoFor(rows, b, height, order);
    HistoryHeights(order, |order|, height);
    forall c | c in undo.created ensures c.out !in rows.outpoints && c.Key() !in rows.utxos {
      CreatedIsNew(rows, b, height, |b.txs|, c);
      assert c.Key() == UtxoKey(c.scripthash, c.out);
    }
  }

  // ----- the UTXO rows of a chain

  ghost predicate Holds(utxos: map<UtxoKey, UtxoValue>, k: UtxoKey, v: UtxoValue) {
    k in utxos && utxos[k] == v
  }

  /** Block i of the chain makes row v for k, and no later block among the first n spends it. */
  ghost predicate LiveFrom(chain: seq<Entry>, start: int, n: nat, i: nat, k: UtxoKey, v: UtxoValue)
    requires i < n <= |chain|
  {
    && MadeRow(chain[i].block, start + i, k, v)
    && forall j :: i < j < n ==> !Spends(chain[j].block.txs, k.out)
  }

  ghost predicate Live(chain: seq<Entry>, start: int, n: nat, k: UtxoKey, v: UtxoValue)
    requires n <= |chain|
  {
    exists i :: 0 <= i < n && LiveFrom(chain, start, n, i, k, v)
  }

  /** The UTXO rows are exactly the outputs that no strictly later block spends, with their true value, height and block. */
  lemma {:induction false} UtxoRowsExact(chain: seq<Entry>, start: int, n: nat, k: UtxoKey, v: UtxoValue)
    requires UniqueTxids(chain) && n <= |chain|
    ensures Holds(Rebuild(chain, start, n).utxos, k, v) <==> Live(chain, start, n, k, v)
  {
    if n > 0 {
      UtxoRowsExact(chain, start, n - 1, k, v);
      UtxoRowsStep(chain, start, n - 1, k, v);
    }
  }

  lemma {:induction false} UtxoRowsStep(chain: seq<Entry>, start: int, n: nat, k: UtxoKey, v: UtxoValue)
    requires UniqueTxids(chain) && n < |chain|
    requires Holds(Rebuild(chain, start, n).utxos, k, v) <==> Live(chain, start, n, k, v)
    ensures Holds(Rebuild(chain, start, n + 1).utxos, k, v) <==> Live(chain, start, n + 1, k, v)
  {
    RebuildUtxo(chain, start, n, k, v);
    LiveStep(chain, start, n + 1, k, v);
  }

  /** Entry n takes away the rows it spends and adds those it makes. */
  lemma {:induction false} RebuildUtxo(chain: seq<Entry>, start: int, n: nat, k: UtxoKey, v: UtxoValue)
    requires UniqueTxids(chain) && n < |chain|
    ensures Holds(Rebuild(chain, start, n + 1).utxos, k, v) <==>
            || (Holds(Rebuild(chain, start, n).utxos, k, v) && !Spends(chain[n].block.txs, k.out))
            || MadeRow(chain[n].block, start + n, k, v)
  {
    KnownUtxo(chain, start, n, Rebuild(chain, start, n), ChainTxids(chain, n), k, v);
  }

  lemma {:induction false} KnownUtxo(chain: seq<Entry>, start: int, n: nat, rows: Rows, txids: set<Hash>, k: UtxoKey, v: UtxoValue)
    requires UniqueTxids(chain) && n < |chain|
    requires rows == Rebuild(chain, start, n) && txids == ChainTxids(chain, n)
    ensures Holds(IndexRows(rows, chain[n].block, start + n, chain[n].order).utxos, k, v) <==>
            || (Holds(rows.utxos, k, v) && !Spends(chain[n].block.txs, k.out))
            || MadeRow(chain[n].block, start + n, k, v)
  {
    KnownSettled(chain, start, n, rows, txids);
    IndexedUtxoStep(rows, txids, chain[n], start + n, k, v);
  }

  lemma {:induction false} IndexedUtxoStep(rows: Rows, txids: set<Hash>, e: Entry, height: int, k: UtxoKey, v: UtxoValue)
    requires Agreement(rows) && Rooted(rows, txids) && Fresh(e.block.txs, txids)
    ensures Holds(IndexRows(rows, e.block, height, e.order).utxos, k, v) <==>
            || (Holds(rows.utxos, k, v) && !Spends(e.block.txs, k.out))
            || MadeRow(e.block, height, k, v)
  {
    NewInChain(rows, txids, e.block.txs);
    IndexedUtxo(rows, e.block, height, e.order, k, v);
  }

  lemma {:induction false} LiveStep(chain: seq<Entry>, start: int, n: nat, k: UtxoKey, v: UtxoValue)
    requires 0 < n <= |chain|
    ensures Live(chain, start, n, k, v) <==>
            || (Live(chain, start, n - 1, k, v) && !Spends(chain[n - 1].block.txs, k.out))
            || MadeRow(chain[n - 1].block, start + n - 1, k, v)
  {
    if Live(chain, start, n - 1, k, v) && !Spends(chain[n - 1].block.txs, k.out) {
      var i :| 0 <= i < n - 1 && LiveFrom(chain, start, n - 1, i, k, v);
      assert LiveFrom(chain, start, n, i, k, v);
    }
    if MadeRow(chain[n - 1].block, start + n - 1, k, v) {
      assert LiveFrom(chain, start, n, n - 1, k, v);
    }
    if Live(chain, start, n, k, v) {
      var i :| 0 <= i < n && LiveFrom(chain, start, n, i, k, v);
      if i < n - 1 {
        assert LiveFrom(chain, start, n - 1, i, k, v);
      }
    }
  }

  // ----- against the ideal UTXO set

  /** Block i makes row v for k, and neither it nor a later block spends it. */
  ghost predicate UnspentFrom(chain: seq<Entry>, start: int, i: nat, k: UtxoKey, v: UtxoValue)
    requires i < |chain|
  {
    && MadeRow(chain[i].block, start + i, k, v)
    && forall j :: i <= j < |chain| ==> !Spends(chain[j].block.txs, k.out)
  }

  ghost predicate Unspent(chain: seq<Entry>, start: int, k: UtxoKey, v: UtxoValue) {
    exists i :: 0 <= i < |chain| && UnspentFrom(chain, start, i, k, v)
  }

  /** Each outpoint is spent by at most one block. */
  ghost predicate SpentOnce(chain: seq<Entry>) {
    forall i, j, o :: 0 <= i < j < |chain| && Spends(chain[i].block.txs, o) ==> !Spends(chain[j].block.txs, o)
  }

  /** The block spends an output that it also makes. */
  ghost predicate SpendsOwn(txs: seq<Tx>, o: OutPoint) {
    Spends(txs, o) && exists out :: Makes(txs, o, out)
  }

  ghost predicate NoOwnSpends(chain: seq<Entry>) {
    forall i, o :: 0 <= i < |chain| ==> !SpendsOwn(chain[i].block.txs, o)
  }

  ghost predicate IdealUtxos(chain: seq<Entry>, start: int, utxos: map<UtxoKey, UtxoValue>) {
    forall k, v :: Holds(utxos, k, v) <==> Unspent(chain, start, k, v)
  }

  lemma {:induction false} OwnSpendLeaks(chain: seq<Entry>, start: int, i: nat, o: OutPoint, out: TxOut)
    requires UniqueTxids(chain) && SpentOnce(chain) && i < |chain|
    requires Spends(chain[i].block.txs, o) && Makes(chain[i].block.txs, o, out)
    ensures var k, v := UtxoKey(out.scripthash, o), UtxoValue(out.value, start + i, chain[i].block.header.hash);
            Live(chain, start, |chain|, k, v) && !Unspent(chain, start, k, v)
  {
    var k, v := UtxoKey(out.scripthash, o), UtxoValue(out.value, start + i, chain[i].block.header.hash);
    assert MadeRow(chain[i].block, start + i, k, v);
    assert LiveFrom(chain, start, |chain|, i, k, v);
    forall j | 0 <= j < |chain| ensures !UnspentFrom(chain, start, j, k, v) {
      assert MadeRow(chain[j].block, start + j, k, v) ==> v.height == start + j;
    }
  }

  lemma {:induction false} LiveIsUnspent(chain: seq<Entry>, start: int, k: UtxoKey, v: UtxoValue)
    requires NoOwnSpends(chain)
    ensures Live(chain, start, |chain|, k, v) <==> Unspent(chain, start, k, v)
  {
    if Live(chain, start, |chain|, k, v) {
      var i :| 0 <= i < |chain| && LiveFrom(chain, start, |chain|, i, k, v);
      assert !SpendsOwn(chain[i].block.txs, k.out);
      assert UnspentFrom(chain, start, i, k, v);
    }
    if Unspent(chain, start, k, v) {
      var i :| 0 <= i < |chain| && UnspentFrom(chain, start, i, k, v);
      assert LiveFrom(chain, start, |chain|, i, k, v);
    }
  }

  /** The UTXO rows are the ideal UTXO set exactly when no block spends an output of its own. */
  lemma {:induction false} IdealWhenNoOwnSpends(chain: seq<Entry>, start: int, utxos: map<UtxoKey, UtxoValue>)
    requires UniqueTxids(chain) && SpentOnce(chain)
    requires utxos == Rebuild(chain, start, |chain|).utxos
    ensures IdealUtxos(chain, start, utxos) <==> NoOwnSpends(chain)
  {
    forall k, v ensures Holds(utxos, k, v) <==> Live(chain, start, |chain|, k, v) {
      UtxoRowsExact(chain, start, |chain|, k, v);
    }
    if NoOwnSpends(chain) {
      forall k, v ensures Holds(utxos, k, v) <==> Unspent(chain, start, k, v) {
        LiveIsUnspent(chain, start, k, v);
      }
    } else {
      var i, o :| 0 <= i < |chain| && SpendsOwn(chain[i].block.txs, o);
      var out :| Makes(chain[i].block.txs, o, out);
      OwnSpendLeaks(chain, start, i, o, out);
      assert !IdealUtxos(chain, start, utxos);
    }
  }
}
