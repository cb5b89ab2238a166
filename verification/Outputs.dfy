/** Which outputs are found at all, said of values and script bytes alone. */
module Outputs {
  import opened Types
  import opened Store
  import opened Indexing
  import opened Replay
  import opened HistoryRows
  import opened Overlay
  import opened Indexer
  import opened Runs
  import opened Statuses
  import Keys
  import HistoryQuery

  /** Neither worth nothing nor an OP_RETURN, whose script begins with 0x6a; an empty script is found. */
  ghost predicate Findable(value: int, script: Bytes) {
    value != 0 && (script == [] || script[0] != 0x6a)
  }

  lemma {:induction false} FindableIsIndexable(out: TxOut)
    ensures Indexable(out) <==> Findable(out.value, out.script)
  {
  }

  /** A txid of 32 zero bytes stands for no transaction. */
  ghost predicate IsNull(txid: Hash) {
    |txid.bytes| == 32 && forall i :: 0 <= i < 32 ==> txid.bytes[i] == 0
  }

  lemma {:induction false} NullIsZero(txid: Hash)
    ensures IsNull(txid) <==> txid == ZERO_HASH
  {
    Keys.ZerosAt(32);
    if IsNull(txid) {
      assert txid.bytes == Zeros(32);
    }
  }

  // ----- confirmed rows

  /** A block above entry i lists the output among the inputs of a transaction other than its first. */
  ghost predicate SpentAbove(chain: seq<Entry>, i: nat, o: OutPoint) {
    !IsNull(o.txid) &&
    exists j, u {:trigger chain[j].block.txs[u]} ::
      i < j < |chain| && 1 <= u < |chain[j].block.txs| && TxIn(o) in chain[j].block.txs[u].ins
  }

  lemma {:induction false} SpentAboveMeans(chain: seq<Entry>, i: nat, o: OutPoint)
    ensures SpentAbove(chain, i, o) <==> exists j :: i < j < |chain| && Spends(chain[j].block.txs, o)
  {
    NullIsZero(o.txid);
    if j :| i < j < |chain| && Spends(chain[j].block.txs, o) {
      var u :| 1 <= u < |chain[j].block.txs| && HasInput(chain[j].block.txs[u].ins, o);
    }
    if SpentAbove(chain, i, o) {
      var j, u :| i < j < |chain| && 1 <= u < |chain[j].block.txs| && TxIn(o) in chain[j].block.txs[u].ins;
      assert HasInput(chain[j].block.txs[u].ins, o);
    }
  }

  ghost predicate IsOutput(chain: seq<Entry>, i: nat, t: nat, v: nat) {
    i < |chain| && t < |chain[i].block.txs| && v < |chain[i].block.txs[t].outs|
  }

  /** Whatever makes this outpoint is this output. */
  lemma {:induction false} MadeOnce(chain: seq<Entry>, i: nat, t: nat, v: nat, j: nat, out: TxOut)
    requires UniqueTxids(chain) && IsOutput(chain, i, t, v) && j < |chain|
    requires Makes(chain[j].block.txs, OutPoint(chain[i].block.txs[t].txid, v), out)
    ensures j == i && out == chain[i].block.txs[t].outs[v]
  {
    var o := OutPoint(chain[i].block.txs[t].txid, v);
    var u :| 0 <= u < |chain[j].block.txs| && chain[j].block.txs[u].txid == o.txid && o.vout < |chain[j].block.txs[u].outs| &&
             chain[j].block.txs[u].outs[o.vout] == out && Indexable(out);
    HistoryQuery.OnePlace(chain, if i <= j then i else j, if i <= j then t else u, if i <= j then j else i, if i <= j then u else t);
  }

  /** A row for this outpoint, under whatever scripthash, is the row of this output. */
  lemma {:induction false} RowIsOutputs(chain: seq<Entry>, start: int, rows: Rows, i: nat, t: nat, v: nat, sh: Hash)
    requires UniqueTxids(chain) && rows == Rebuild(chain, start, |chain|) && IsOutput(chain, i, t, v)
    requires UtxoKey(sh, OutPoint(chain[i].block.txs[t].txid, v)) in rows.utxos
    ensures var out, o := chain[i].block.txs[t].outs[v], OutPoint(chain[i].block.txs[t].txid, v);
            && sh == out.scripthash && Findable(out.value, out.script) && !SpentAbove(chain, i, o)
            && rows.utxos[UtxoKey(sh, o)] == UtxoValue(out.value, start + i, chain[i].block.header.hash)
  {
    var out, o := chain[i].block.txs[t].outs[v], OutPoint(chain[i].block.txs[t].txid, v);
    var k := UtxoKey(sh, o);
    UtxoRowsExact(chain, start, |chain|, k, rows.utxos[k]);
    var j :| 0 <= j < |chain| && LiveFrom(chain, start, |chain|, j, k, rows.utxos[k]);
    var made :| Makes(chain[j].block.txs, o, made) && sh == made.scripthash &&
                rows.utxos[k] == UtxoValue(made.value, start + j, chain[j].block.header.hash);
    MadeOnce(chain, i, t, v, j, made);
    SpentAboveMeans(chain, i, o);
  }

  lemma {:induction false} OutputHasRow(chain: seq<Entry>, start: int, rows: Rows, i: nat, t: nat, v: nat)
    requires UniqueTxids(chain) && rows == Rebuild(chain, start, |chain|) && IsOutput(chain, i, t, v)
    requires var out, o := chain[i].block.txs[t].outs[v], OutPoint(chain[i].block.txs[t].txid, v);
             Findable(out.value, out.script) && !SpentAbove(chain, i, o)
    ensures UtxoKey(chain[i].block.txs[t].outs[v].scripthash, OutPoint(chain[i].block.txs[t].txid, v)) in rows.utxos
  {
    var out, o := chain[i].block.txs[t].outs[v], OutPoint(chain[i].block.txs[t].txid, v);
    var k, row := UtxoKey(out.scripthash, o), UtxoValue(out.value, start + i, chain[i].block.header.hash);
    assert Makes(chain[i].block.txs, o, out);
    assert MadeRow(chain[i].block, start + i, k, row);
    SpentAboveMeans(chain, i, o);
    assert LiveFrom(chain, start, |chain|, i, k, row);
    UtxoRowsExact(chain, start, |chain|, k, row);
  }

  /** An output of the chain has its two rows if and only if it is worth something, its script does not begin with 0x6a, and
      no later block spends it; and it has no others. */
  lemma {:induction false} OutputRows(chain: seq<Entry>, start: int, rows: Rows, i: nat, t: nat, v: nat)
    requires UniqueTxids(chain) && rows == Rebuild(chain, start, |chain|) && IsOutput(chain, i, t, v)
    ensures var out, o := chain[i].block.txs[t].outs[v], OutPoint(chain[i].block.txs[t].txid, v);
            && (UtxoKey(out.scripthash, o) in rows.utxos <==> Findable(out.value, out.script) && !SpentAbove(chain, i, o))
            && (forall sh {:trigger UtxoKey(sh, o)} :: UtxoKey(sh, o) in rows.utxos ==>
                  sh == out.scripthash && rows.utxos[UtxoKey(sh, o)] == UtxoValue(out.value, start + i, chain[i].block.header.hash))
            && (o in rows.outpoints <==> Findable(out.value, out.script) && !SpentAbove(chain, i, o))
            && (o in rows.outpoints ==> rows.outpoints[o] == out.scripthash)
  {
    var out, o := chain[i].block.txs[t].outs[v], OutPoint(chain[i].block.txs[t].txid, v);
    KnownSettled(chain, start, |chain|, rows, ChainTxids(chain, |chain|));
    if Findable(out.value, out.script) && !SpentAbove(chain, i, o) {
      OutputHasRow(chain, start, rows, i, t, v);
    }
    forall sh | UtxoKey(sh, o) in rows.utxos
      ensures sh == out.scripthash && Findable(out.value, out.script) && !SpentAbove(chain, i, o)
      ensures rows.utxos[UtxoKey(sh, o)] == UtxoValue(out.value, start + i, chain[i].block.header.hash)
    {
      RowIsOutputs(chain, start, rows, i, t, v, sh);
    }
    if o in rows.outpoints {
      assert UtxoKey(rows.outpoints[o], o) in rows.utxos;
    }
  }

  /** So they are at the end of every run of index, rollback and prune steps. */
  lemma {:induction false} RunOutputRows(m0: Machine, steps: seq<Step>, depth: nat, m: Machine, i: nat, t: nat, v: nat)
    requires FreshlyAnchored(m0) && Run(m0, steps, depth) == Some(m) && IsOutput(m.chain, i, t, v)
    ensures var out, o := m.chain[i].block.txs[t].outs[v], OutPoint(m.chain[i].block.txs[t].txid, v);
            o in m.db.rows.outpoints <==> Findable(out.value, out.script) && !SpentAbove(m.chain, i, o)
  {
    FreshInStep(m0, depth);
    RunKeeps(m0, steps, depth);
    OutputRows(m.chain, m.start, m.db.rows, i, t, v);
  }

  /** A transaction that pays a scripthash with such an output is in its confirmed history. */
  lemma {:induction false} PaidIsInHistory(chain: seq<Entry>, start: int, rows: Rows, i: nat, t: nat, v: nat)
    requires UniqueTxids(chain) && Ordered(chain, start) && rows == Rebuild(chain, start, |chain|) && IsOutput(chain, i, t, v)
    requires var out := chain[i].block.txs[t].outs[v]; Findable(out.value, out.script)
    ensures Listed(rows.history, chain[i].block.txs[t].outs[v].scripthash, start + i, t)
  {
    PaidTouches(chain, start, i, t, v);
    HistoryExact(chain, start, |chain|, chain[i].block.txs[t].outs[v].scripthash, start + i, t);
  }

  lemma {:induction false} PaidTouches(chain: seq<Entry>, start: int, i: nat, t: nat, v: nat)
    requires IsOutput(chain, i, t, v) && var out := chain[i].block.txs[t].outs[v]; Findable(out.value, out.script)
    ensures TouchesAt(chain, start, |chain|, chain[i].block.txs[t].outs[v].scripthash, start + i, t)
  {
    var outs := chain[i].block.txs[t].outs;
    PaidIsIndexed(outs, v);
    assert outs[v].scripthash in Touched(Rebuild(chain, start, i), chain[i].block.txs, t);
  }

  lemma {:induction false} PaidIsIndexed(outs: seq<TxOut>, v: nat)
    requires v < |outs| && Findable(outs[v].value, outs[v].script)
    ensures outs[v].scripthash in IndexedScripthashes(outs)
  {
    assert outs[v] in outs;
  }

  // ----- the mempool

  lemma {:induction false} ListedIsHeld(ov: OverlayView, o: OutPoint)
    requires Exact(ov) && o in ov.outputs
    ensures o.txid in ov.transactions
  {
    assert HasOutput(ov.transactions, o.txid, ov.outputs[o]);
  }

  /** A transaction added to an exact overlay lists exactly such outputs, at their positions, with their values, unspent. */
  lemma {:induction false} AddedLists(ov: OverlayView, rows: Rows, tx: Tx, v: nat)
    requires Exact(ov) && tx.txid !in ov.transactions && v < |tx.outs|
    ensures var o, after := OutPoint(tx.txid, v), Added(ov, rows, tx);
            && (o in after.outputs <==> Findable(tx.outs[v].value, tx.outs[v].script))
            && (o in after.outputs ==> after.outputs[o] == OutputView(o, tx.outs[v].scripthash, tx.outs[v].value, None))
  {
    var o, t := OutPoint(tx.txid, v), NewTx(ov, rows, tx);
    var listed := OutputView(o, tx.outs[v].scripthash, tx.outs[v].value, None);
    var kept := KeptOutputs(ov, Prevs(t.inputs) * ov.outputs.Keys, tx.txid);
    if o in ov.outputs {
      ListedIsHeld(ov, o);
    }
    PutOutputsAt(kept, t.outputs, o);
    NewOutputsExact(tx.txid, tx.outs, listed);
    if o in OutsOf(t.outputs) {
      NewOutputsExact(tx.txid, tx.outs, Added(ov, rows, tx).outputs[o]);
    }
  }

  /** Each of its inputs but null ones is recorded: with the owner and value of the overlay's output if it lists one, else of
      the confirmed row if there is one, else as unknown. */
  lemma {:induction false} AddedRecords(ov: OverlayView, rows: Rows, tx: Tx, i: nat)
    requires i < |tx.ins| && !IsNull(tx.ins[i].prev.txid)
    ensures exists r {:trigger r in Added(ov, rows, tx).transactions[tx.txid].inputs} ::
              && r in Added(ov, rows, tx).transactions[tx.txid].inputs && Records(ov, rows, r) && r.prev == tx.ins[i].prev
    ensures tx.ins[i].prev in Added(ov, rows, tx).spentBy && Added(ov, rows, tx).spentBy[tx.ins[i].prev] == tx.txid
  {
    NullIsZero(tx.ins[i].prev.txid);
    InputsAt(ov.outputs, rows, tx.ins, i);
    var r := Resolve(ov.outputs, rows, tx.ins[i].prev);
    assert r in Added(ov, rows, tx).transactions[tx.txid].inputs && Records(ov, rows, r);
    assert r.prev in Prevs(NewTx(ov, rows, tx).inputs);
  }

  ghost predicate Records(ov: OverlayView, rows: Rows, r: MempoolInput) {
    if r.prev in ov.outputs
    then r == MempoolInput(r.prev, Some(ov.outputs[r.prev].scripthash), ov.outputs[r.prev].value, true)
    else if r.prev in rows.outpoints
    then
      && r.scripthash == Some(rows.outpoints[r.prev]) && !r.fromMempool
      && var k := UtxoKey(rows.outpoints[r.prev], r.prev); r.value == if k in rows.utxos then rows.utxos[k].value else 0
    else r == MempoolInput(r.prev, None, 0, false)
  }

  lemma {:induction false} InputsAt(outputs: map<OutPoint, OutputView>, rows: Rows, ins: seq<TxIn>, i: nat)
    requires i < |ins| && !IsCoinbaseInput(ins[i])
    ensures Resolve(outputs, rows, ins[i].prev) in Inputs(outputs, rows, ins)
  {
    if i < |ins| - 1 {
      InputsAt(outputs, rows, ins[..|ins| - 1], i);
    }
  }

  /** Transaction i of a block, unless it is the first, lists o among its inputs, and o has an outpoint row. */
  ghost predicate KnownInput(rows: Rows, txs: seq<Tx>, i: nat, o: OutPoint)
    requires i < |txs|
  {
    i > 0 && !IsNull(o.txid) && TxIn(o) in txs[i].ins && o in rows.outpoints
  }

  /** Confirming a transaction takes from the overlay its own spends and outputs and the known outpoints it spends, nothing else. */
  lemma {:induction false} ConfirmedDrops(ov: OverlayView, rows: Rows, txs: seq<Tx>, i: nat, o: OutPoint)
    requires Exact(ov) && i < |txs|
    ensures var now, txid := ConfirmTx(ov, rows, txs, i), txs[i].txid;
            && (o in now.outputs <==> o in ov.outputs && !KnownInput(rows, txs, i, o) && o.txid != txid)
            && (o in now.outputs ==> now.outputs[o] == ov.outputs[o])
            && (o in now.spentBy <==> o in ov.spentBy && !KnownInput(rows, txs, i, o) && ov.spentBy[o] != txid)
            && (o in now.spentBy ==> now.spentBy[o] == ov.spentBy[o])
            && now.transactions == ov.transactions - {txid}
  {
    var txid := txs[i].txid;
    KnownMeans(rows, txs, i, o);
    if txid in ov.transactions {
      OwnListed(ov, txid, o);
      OwnSpent(ov, txid, o);
    } else {
      NotHeld(ov, txid, o);
    }
  }

  lemma {:induction false} KnownMeans(rows: Rows, txs: seq<Tx>, i: nat, o: OutPoint)
    requires i < |txs|
    ensures KnownInput(rows, txs, i, o) <==> i > 0 && o in KnownPrevs(rows, txs[i].ins)
  {
    NullIsZero(o.txid);
    if KnownInput(rows, txs, i, o) {
      assert TxIn(o) in txs[i].ins && !IsCoinbaseInput(TxIn(o)) && TxIn(o).prev in rows.outpoints;
    }
  }

  lemma {:induction false} NotHeld(ov: OverlayView, txid: Hash, o: OutPoint)
    requires Exact(ov) && txid !in ov.transactions
    ensures o in ov.outputs ==> o.txid != txid
    ensures o in ov.spentBy ==> ov.spentBy[o] != txid
  {
    if o in ov.outputs {
      assert HasOutput(ov.transactions, o.txid, ov.outputs[o]);
    }
    if o in ov.spentBy {
      assert HasPrev(ov.transactions, ov.spentBy[o], o);
    }
  }

  lemma {:induction false} OwnListed(ov: OverlayView, txid: Hash, o: OutPoint)
    requires Exact(ov) && txid in ov.transactions
    ensures o in OutsOf(ov.transactions[txid].outputs) <==> o in ov.outputs && o.txid == txid
  {
    if o in ov.outputs {
      assert HasOutput(ov.transactions, o.txid, ov.outputs[o]) && ov.outputs[o].out == o;
    }
    if o in OutsOf(ov.transactions[txid].outputs) {
      var v :| v in ov.transactions[txid].outputs && v.out == o;
      assert HasOutput(ov.transactions, txid, v);
    }
  }

  lemma {:induction false} OwnSpent(ov: OverlayView, txid: Hash, o: OutPoint)
    requires Exact(ov) && txid in ov.transactions
    ensures o in Prevs(ov.transactions[txid].inputs) <==> o in ov.spentBy && ov.spentBy[o] == txid
  {
    if o in ov.spentBy {
      assert HasPrev(ov.transactions, ov.spentBy[o], o);
    }
    if o in Prevs(ov.transactions[txid].inputs) {
      assert HasPrev(ov.transactions, txid, o);
    }
  }

  // ----- what a block affects

  /** One of the block's transactions pays sh with such an output, or has an input, other than the null one, whose outpoint
      row names sh. */
  ghost predicate Concerns(rows: Rows, tx: Tx, sh: Hash) {
    || (exists v :: 0 <= v < |tx.outs| && Findable(tx.outs[v].value, tx.outs[v].script) && tx.outs[v].scripthash == sh)
    || (exists i {:trigger tx.ins[i]} :: 0 <= i < |tx.ins| && !IsNull(tx.ins[i].prev.txid) && tx.ins[i].prev in rows.outpoints &&
          rows.outpoints[tx.ins[i].prev] == sh)
  }

  lemma {:induction false} ConcernsMeans(rows: Rows, tx: Tx, sh: Hash)
    ensures Concerns(rows, tx, sh) <==> sh in AffectedIn(rows, tx.ins) + IndexedScripthashes(tx.outs)
  {
    forall x | x in tx.ins ensures IsNull(x.prev.txid) <==> IsCoinbaseInput(x) {
      NullIsZero(x.prev.txid);
    }
    if sh in AffectedIn(rows, tx.ins) {
      var x :| x in tx.ins && !IsCoinbaseInput(x) && x.prev in rows.outpoints && rows.outpoints[x.prev] == sh;
      var i :| 0 <= i < |tx.ins| && tx.ins[i] == x;
    }
    if sh in IndexedScripthashes(tx.outs) {
      var out :| out in tx.outs && Indexable(out) && out.scripthash == sh;
      var v :| 0 <= v < |tx.outs| && tx.outs[v] == out;
    }
    if Concerns(rows, tx, sh) && sh !in IndexedScripthashes(tx.outs) {
      assert forall v :: 0 <= v < |tx.outs| ==> tx.outs[v] in tx.outs;
      var i :| 0 <= i < |tx.ins| && !IsNull(tx.ins[i].prev.txid) && tx.ins[i].prev in rows.outpoints && rows.outpoints[tx.ins[i].prev] == sh;
      assert tx.ins[i] in tx.ins;
    }
  }

  /** The collected scripthashes are exactly those that a transaction of the block concerns. */
  lemma {:induction false} AffectedExact(rows: Rows, txs: seq<Tx>, n: nat, sh: Hash)
    requires n <= |txs|
    ensures sh in AffectedBy(rows, txs, n) <==> exists t :: 0 <= t < n && Concerns(rows, txs[t], sh)
  {
    if n > 0 {
      AffectedExact(rows, txs, n - 1, sh);
      ConcernsMeans(rows, txs[n - 1], sh);
    }
  }
}
