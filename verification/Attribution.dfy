/** Whose outputs are whose: the scripthashes that rows and overlay record, against the transactions that made them. */
module Attribution {
  import opened Types
  import opened Store
  import opened Indexing
  import opened Replay
  import opened Overlay
  import opened Indexer

  /** A transaction for each id: an id stands for one transaction, wherever it turns up. */
  type Universe = map<Hash, Tx>

  /** The id commits to inputs and outputs, not to the serialised bytes: a witness may differ. */
  ghost predicate TxOf(u: Universe, tx: Tx) {
    tx.txid in u && u[tx.txid].ins == tx.ins && u[tx.txid].outs == tx.outs
  }

  ghost predicate Drawn(u: Universe, txs: seq<Tx>) {
    forall tx {:trigger tx in txs} :: tx in txs ==> TxOf(u, tx)
  }

  ghost predicate ChainDrawn(u: Universe, chain: seq<Entry>) {
    forall i :: 0 <= i < |chain| ==> Drawn(u, chain[i].block.txs)
  }

  /** Output o is indexable and pays to sh. */
  ghost predicate Pays(u: Universe, o: OutPoint, sh: Hash) {
    && o.txid in u && o.vout < |u[o.txid].outs|
    && Indexable(u[o.txid].outs[o.vout]) && u[o.txid].outs[o.vout].scripthash == sh
  }

  // ----- the invariant

  ghost predicate OutpointsRight(u: Universe, outpoints: map<OutPoint, Hash>) {
    forall o {:trigger o in outpoints} :: o in outpoints ==> Pays(u, o, outpoints[o])
  }

  ghost predicate OutputsRight(u: Universe, outputs: map<OutPoint, OutputView>) {
    forall o {:trigger o in outputs} :: o in outputs ==> Pays(u, o, outputs[o].scripthash)
  }

  ghost predicate InputRight(u: Universe, tx: Tx, i: MempoolInput) {
    HasInput(tx.ins, i.prev) && (i.scripthash.Some? ==> Pays(u, i.prev, i.scripthash.value))
  }

  /** A held transaction is one of the universe's, filed under the scripthashes of its outputs and of its inputs. */
  ghost predicate HeldRight(u: Universe, t: Hash, held: TxView) {
    && t in u
    && held.scripthashes == InputScripthashes(held.inputs) + OutputScripthashes(held.outputs)
    && OutputScripthashes(held.outputs) <= IndexedScripthashes(u[t].outs)
    && forall i {:trigger i in held.inputs} :: i in held.inputs ==> InputRight(u, u[t], i)
  }

  ghost predicate AllHeldRight(u: Universe, txs: map<Hash, TxView>) {
    forall t {:trigger t in txs} :: t in txs ==> HeldRight(u, t, txs[t])
  }

  ghost predicate OverlayRight(u: Universe, ov: OverlayView) {
    OutputsRight(u, ov.outputs) && AllHeldRight(u, ov.transactions)
  }

  // ----- confirmed outpoints

  lemma {:induction false} CreatedRight(u: Universe, m: map<OutPoint, Hash>, tx: Tx, height: int, hash: Hash)
    requires OutpointsRight(u, m) && TxOf(u, tx)
    ensures OutpointsRight(u, PutOutpoints(m, Created(tx.txid, tx.outs, height, hash)))
  {
    var made := Created(tx.txid, tx.outs, height, hash);
    forall o | o in PutOutpoints(m, made) ensures Pays(u, o, PutOutpoints(m, made)[o]) {
      PutOutpointsAt(m, made, o);
      if o in Outs(made) {
        var x :| x in made && x.out == o && PutOutpoints(m, made)[o] == x.scripthash;
        CreatedExact(tx.txid, tx.outs, height, hash, x);
      }
    }
  }

  lemma {:induction false} PendingRight(u: Universe, rows: Rows, b: Block, height: int, n: nat)
    requires n <= |b.txs| && OutpointsRight(u, rows.outpoints) && Drawn(u, b.txs)
    ensures OutpointsRight(u, PendingOutpoints(rows, b, height, n))
  {
    if n > 0 {
      PendingRight(u, rows, b, height, n - 1);
      var m := PendingOutpoints(rows, b, height, n - 1) - Outs(TxSpent(rows, b.txs, n - 1));
      assert b.txs[n - 1] in b.txs;
      CreatedRight(u, m, b.txs[n - 1], height, b.header.hash);
    }
  }

  // ----- held transactions

  lemma {:induction false} ResolvedRight(u: Universe, outputs: map<OutPoint, OutputView>, rows: Rows, ins: seq<TxIn>, tx: Tx)
    requires OutputsRight(u, outputs) && OutpointsRight(u, rows.outpoints) && forall i :: i in ins ==> i in tx.ins
    ensures forall i {:trigger i in Inputs(outputs, rows, ins)} :: i in Inputs(outputs, rows, ins) ==> InputRight(u, tx, i)
  {
    if ins != [] {
      var init, last := ins[..|ins| - 1], ins[|ins| - 1];
      ResolvedRight(u, outputs, rows, init, tx);
      if !IsCoinbaseInput(last) {
        var r := Resolve(outputs, rows, last.prev);
        assert TxIn(last.prev) == last;
        assert InputRight(u, tx, r);
        assert forall i :: i in Inputs(outputs, rows, init) + [r] <==> i in Inputs(outputs, rows, init) || i == r;
      }
    }
  }

  lemma {:induction false} NewRight(u: Universe, ov: OverlayView, rows: Rows, tx: Tx)
    requires OverlayRight(u, ov) && OutpointsRight(u, rows.outpoints) && TxOf(u, tx)
    ensures HeldRight(u, tx.txid, NewTx(ov, rows, tx))
    ensures forall v {:trigger v in NewOutputs(tx.txid, tx.outs)} :: v in NewOutputs(tx.txid, tx.outs) ==> Pays(u, v.out, v.scripthash)
  {
    ResolvedRight(u, ov.outputs, rows, tx.ins, tx);
    forall v | v in NewOutputs(tx.txid, tx.outs)
      ensures Pays(u, v.out, v.scripthash) && v.scripthash in IndexedScripthashes(tx.outs)
    {
      NewOutputsExact(tx.txid, tx.outs, v);
      assert tx.outs[v.out.vout] in tx.outs;
    }
  }

  lemma {:induction false} MarkedScripthashes(outputs: seq<OutputView>, prevs: set<OutPoint>, txid: Hash)
    ensures OutputScripthashes(MarkedAll(outputs, prevs, txid)) == OutputScripthashes(outputs)
  {
    var marked := MarkedAll(outputs, prevs, txid);
    forall sh | sh in OutputScripthashes(outputs) ensures sh in OutputScripthashes(marked) {
      var v :| v in outputs && v.scripthash == sh;
      MarkedIn(outputs, prevs, txid, Marked(v, prevs, txid));
    }
    forall sh | sh in OutputScripthashes(marked) ensures sh in OutputScripthashes(outputs) {
      var v :| v in marked && v.scripthash == sh;
      MarkedIn(outputs, prevs, txid, v);
    }
  }

  lemma {:induction false} KeptRight(u: Universe, ov: OverlayView, prevs: set<OutPoint>, txid: Hash)
    requires AllHeldRight(u, ov.transactions)
    ensures AllHeldRight(u, Kept(ov, prevs, txid))
  {
    forall t | t in ov.transactions ensures HeldRight(u, t, Kept(ov, prevs, txid)[t]) {
      MarkedScripthashes(ov.transactions[t].outputs, prevs, txid);
    }
  }

  lemma {:induction false} ListedRight(u: Universe, m: map<OutPoint, OutputView>, outputs: seq<OutputView>)
    requires OutputsRight(u, m) && forall v {:trigger v in outputs} :: v in outputs ==> Pays(u, v.out, v.scripthash)
    ensures OutputsRight(u, PutOutputs(m, outputs))
  {
    forall o | o in PutOutputs(m, outputs) ensures Pays(u, o, PutOutputs(m, outputs)[o].scripthash) {
      PutOutputsAt(m, outputs, o);
    }
  }

  lemma {:induction false} AddedRight(u: Universe, ov: OverlayView, rows: Rows, tx: Tx)
    requires OverlayRight(u, ov) && OutpointsRight(u, rows.outpoints) && TxOf(u, tx)
    ensures OverlayRight(u, Added(ov, rows, tx))
  {
    var t := NewTx(ov, rows, tx);
    var prevs := Prevs(t.inputs) * ov.outputs.Keys;
    NewRight(u, ov, rows, tx);
    KeptRight(u, ov, prevs, tx.txid);
    ListedRight(u, KeptOutputs(ov, prevs, tx.txid), t.outputs);
  }

  /** Fewer transactions and fewer outputs, each as it was. */
  ghost predicate Shrunk(was: OverlayView, now: OverlayView) {
    && (forall t {:trigger t in now.transactions} :: t in now.transactions ==>
          t in was.transactions && now.transactions[t] == was.transactions[t])
    && (forall o {:trigger o in now.outputs} :: o in now.outputs ==> o in was.outputs && now.outputs[o] == was.outputs[o])
  }

  lemma {:induction false} ShrunkRight(u: Universe, was: OverlayView, now: OverlayView)
    requires OverlayRight(u, was) && Shrunk(was, now)
    ensures OverlayRight(u, now)
  {
  }

  lemma {:induction false} BlockShrinks(ov: OverlayView, rows: Rows, txs: seq<Tx>, n: nat)
    requires n <= |txs|
    ensures Shrunk(ov, ConfirmBlock(ov, rows, txs, n))
  {
    if n > 0 {
      BlockShrinks(ov, rows, txs, n - 1);
    }
  }

  // ----- what a block may spend

  ghost predicate SpentSoFar(chain: seq<Entry>, o: OutPoint) {
    exists j :: 0 <= j < |chain| && Spends(chain[j].block.txs, o)
  }

  /** Consensus: an output of one of these transactions can be spent by its own block, or later if no block has spent it. */
  ghost predicate MaySpend(u: Universe, chain: seq<Entry>, txs: seq<Tx>, o: OutPoint) {
    o.txid in u ==>
      || o.txid in Elements(Txids(txs))
      || (o.txid in ChainTxids(chain, |chain|) && !SpentSoFar(chain, o))
  }

  ghost predicate SpendsWell(u: Universe, chain: seq<Entry>, txs: seq<Tx>) {
    forall t, o {:trigger HasInput(txs[t].ins, o)} :: 0 <= t < |txs| && HasInput(txs[t].ins, o) ==> MaySpend(u, chain, txs, o)
  }

  lemma {:induction false} MadeBy(u: Universe, txs: seq<Tx>, o: OutPoint, sh: Hash)
    requires Drawn(u, txs) && Pays(u, o, sh) && o.txid in Elements(Txids(txs))
    ensures Makes(txs, o, u[o.txid].outs[o.vout])
  {
    var t :| 0 <= t < |txs| && Txids(txs)[t] == o.txid;
    assert txs[t] in txs;
  }

  lemma {:induction false} WhichBlock(chain: seq<Entry>, n: nat, txid: Hash) returns (i: nat)
    requires n <= |chain| && txid in ChainTxids(chain, n)
    ensures i < n && txid in Elements(Txids(chain[i].block.txs))
  {
    if txid in Elements(Txids(chain[n - 1].block.txs)) {
      i := n - 1;
    } else {
      i := WhichBlock(chain, n - 1, txid);
    }
  }

  /** An output of the chain that no block has spent has its outpoint row. */
  lemma {:induction false} UnspentIsKnown(u: Universe, chain: seq<Entry>, start: int, rows: Rows, o: OutPoint, sh: Hash)
    requires UniqueTxids(chain) && rows == Rebuild(chain, start, |chain|) && ChainDrawn(u, chain)
    requires Pays(u, o, sh) && o.txid in ChainTxids(chain, |chain|) && !SpentSoFar(chain, o)
    ensures o in rows.outpoints
  {
    var i := WhichBlock(chain, |chain|, o.txid);
    var out := u[o.txid].outs[o.vout];
    MadeBy(u, chain[i].block.txs, o, sh);
    var k, v := UtxoKey(sh, o), UtxoValue(out.value, start + i, chain[i].block.header.hash);
    assert MadeRow(chain[i].block, start + i, k, v);
    assert LiveFrom(chain, start, |chain|, i, k, v);
    RowOfLive(chain, start, rows, k, v);
  }

  lemma {:induction false} RowOfLive(chain: seq<Entry>, start: int, rows: Rows, k: UtxoKey, v: UtxoValue)
    requires UniqueTxids(chain) && rows == Rebuild(chain, start, |chain|) && Live(chain, start, |chain|, k, v)
    ensures k.out in rows.outpoints
  {
    UtxoRowsExact(chain, start, |chain|, k, v);
    KnownSettled(chain, start, |chain|, rows, ChainTxids(chain, |chain|));
    assert k == UtxoKey(k.scripthash, k.out);
  }
}
