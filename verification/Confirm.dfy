/** A block that confirms held transactions: what its clients see moves from the mempool to the chain and does not change. */
module Confirm {
  import opened Types
  import opened Store
  import opened Indexing
  import opened Replay
  import opened Overlay
  import opened Balance
  import opened Indexer
  import opened OverlayRuns

  // ----- a transaction that the overlay holds

  ghost predicate MirrorsInput(t: TxView, ins: seq<TxIn>, o: OutPoint) {
    o in Prevs(t.inputs) <==> HasInput(ins, o)
  }

  ghost predicate MirrorsOutput(outputs: map<OutPoint, OutputView>, tx: Tx, n: nat) {
    var o := OutPoint(tx.txid, n);
    && (o in outputs <==> n < |tx.outs| && Indexable(tx.outs[n]))
    && (o in outputs ==> outputs[o].scripthash == tx.outs[n].scripthash && outputs[o].value == tx.outs[n].value)
  }

  /** The overlay holds this transaction, with these inputs and these outputs. */
  ghost predicate Mirrors(ov: OverlayView, tx: Tx) {
    && tx.txid in ov.transactions
    && (forall o {:trigger HasInput(tx.ins, o)} :: MirrorsInput(ov.transactions[tx.txid], tx.ins, o))
    && (forall n {:trigger MirrorsOutput(ov.outputs, tx, n)} :: MirrorsOutput(ov.outputs, tx, n))
  }

  /** That is what adding it does. */
  lemma {:induction false} AddedMirrors(ov: OverlayView, rows: Rows, tx: Tx)
    requires Exact(ov) && tx.txid !in ov.transactions
    ensures Mirrors(Added(ov, rows, tx), tx)
  {
    var t := NewTx(ov, rows, tx);
    var kept := KeptOutputs(ov, Prevs(t.inputs) * ov.outputs.Keys, tx.txid);
    forall o ensures MirrorsInput(t, tx.ins, o) {
      InputsExact(ov.outputs, rows, tx.ins, o);
    }
    forall n: nat ensures MirrorsOutput(PutOutputs(kept, t.outputs), tx, n) {
      AddedOutput(ov, kept, tx, n);
    }
  }

  lemma {:induction false} AddedOutput(ov: OverlayView, kept: map<OutPoint, OutputView>, tx: Tx, n: nat)
    requires Exact(ov) && tx.txid !in ov.transactions && kept.Keys == ov.outputs.Keys
    ensures MirrorsOutput(PutOutputs(kept, NewOutputs(tx.txid, tx.outs)), tx, n)
  {
    var made, o := NewOutputs(tx.txid, tx.outs), OutPoint(tx.txid, n);
    PutOutputsAt(kept, made, o);
    assert o in ov.outputs ==> HasOutput(ov.transactions, o.txid, ov.outputs[o]);
    if n < |tx.outs| && Indexable(tx.outs[n]) {
      var v := OutputView(o, tx.outs[n].scripthash, tx.outs[n].value, None);
      NewOutputsExact(tx.txid, tx.outs, v);
      assert v in made && v.out == o;
    }
    if o in OutsOf(made) {
      NewOutputsExact(tx.txid, tx.outs, PutOutputs(kept, made)[o]);
    }
  }

  /** Held as it is, and filed under the scripthashes recorded for it. */
  ghost predicate Faithful(ov: OverlayView, tx: Tx) {
    Mirrors(ov, tx) && FiledAsRecorded(ov.transactions[tx.txid])
  }

  ghost predicate FiledAsRecorded(t: TxView) {
    t.scripthashes == InputScripthashes(t.inputs) + OutputScripthashes(t.outputs)
  }

  ghost predicate SameButFlag(a: OutputView, b: OutputView) {
    a.out == b.out && a.scripthash == b.scripthash && a.value == b.value
  }

  /** The same transaction, but for the spent flags of its outputs. */
  ghost predicate SameButFlags(a: TxView, b: TxView) {
    && a.inputs == b.inputs && a.scripthashes == b.scripthashes && |a.outputs| == |b.outputs|
    && forall i {:trigger SameButFlag(a.outputs[i], b.outputs[i])} :: 0 <= i < |a.outputs| ==> SameButFlag(a.outputs[i], b.outputs[i])
  }

  lemma {:induction false} SameOutputs(a: TxView, b: TxView)
    requires SameButFlags(a, b)
    ensures OutputScripthashes(a.outputs) == OutputScripthashes(b.outputs)
    ensures forall v {:trigger v in a.outputs} :: v in a.outputs ==> exists w {:trigger w in b.outputs} :: w in b.outputs && SameButFlag(v, w)
    ensures forall w {:trigger w in b.outputs} :: w in b.outputs ==> exists v {:trigger v in a.outputs} :: v in a.outputs && SameButFlag(v, w)
  {
    forall v | v in a.outputs ensures exists w {:trigger w in b.outputs} :: w in b.outputs && SameButFlag(v, w) {
      var i :| 0 <= i < |a.outputs| && a.outputs[i] == v;
      assert SameButFlag(a.outputs[i], b.outputs[i]) && b.outputs[i] in b.outputs;
    }
    forall w | w in b.outputs ensures exists v {:trigger v in a.outputs} :: v in a.outputs && SameButFlag(v, w) {
      var i :| 0 <= i < |b.outputs| && b.outputs[i] == w;
      assert SameButFlag(a.outputs[i], b.outputs[i]) && a.outputs[i] in a.outputs;
    }
  }

  lemma {:induction false} FlagsReversed(a: TxView, b: TxView)
    requires SameButFlags(a, b)
    ensures SameButFlags(b, a)
  {
    forall i | 0 <= i < |b.outputs| ensures SameButFlag(b.outputs[i], a.outputs[i]) {
      assert SameButFlag(a.outputs[i], b.outputs[i]);
    }
  }

  /** An output's row follows from the transaction that made it. */
  lemma {:induction false} OutputCarries(was: OverlayView, now: OverlayView, o: OutPoint)
    requires Exact(was) && Exact(now) && o in was.outputs && o.txid in now.transactions
    requires o.txid in was.transactions && SameButFlags(was.transactions[o.txid], now.transactions[o.txid])
    ensures o in now.outputs && SameButFlag(was.outputs[o], now.outputs[o])
  {
    SameOutputs(was.transactions[o.txid], now.transactions[o.txid]);
    assert HasOutput(was.transactions, o.txid, was.outputs[o]);
    var w :| w in now.transactions[o.txid].outputs && SameButFlag(was.outputs[o], w);
    assert HasOutput(now.transactions, o.txid, w);
  }

  lemma {:induction false} MirrorsOutputCarries(was: OverlayView, now: OverlayView, tx: Tx, n: nat)
    requires Exact(was) && Exact(now) && tx.txid in was.transactions && tx.txid in now.transactions
    requires SameButFlags(was.transactions[tx.txid], now.transactions[tx.txid]) && MirrorsOutput(was.outputs, tx, n)
    ensures MirrorsOutput(now.outputs, tx, n)
  {
    var o := OutPoint(tx.txid, n);
    if o in was.outputs {
      OutputCarries(was, now, o);
    }
    if o in now.outputs {
      FlagsReversed(was.transactions[tx.txid], now.transactions[tx.txid]);
      OutputCarries(now, was, o);
    }
  }

  lemma {:induction false} FaithfulCarries(was: OverlayView, now: OverlayView, tx: Tx)
    requires Exact(was) && Exact(now) && Faithful(was, tx) && tx.txid in now.transactions
    requires SameButFlags(was.transactions[tx.txid], now.transactions[tx.txid])
    ensures Faithful(now, tx)
  {
    SameOutputs(was.transactions[tx.txid], now.transactions[tx.txid]);
    forall o ensures MirrorsInput(now.transactions[tx.txid], tx.ins, o) {
      assert HasInput(tx.ins, o) <==> o in Prevs(was.transactions[tx.txid].inputs);
    }
    forall n: nat ensures MirrorsOutput(now.outputs, tx, n) {
      assert MirrorsOutput(was.outputs, tx, n);
      MirrorsOutputCarries(was, now, tx, n);
    }
  }

  /** A transaction that is held after a step was held before, or is the one just added. */
  lemma {:induction false} StepCarries(was: OverlayView, op: Operation, now: OverlayView, t: Hash)
    requires Exact(was) && OverlayStep(was, op, now) && t in now.transactions
    ensures (op.Add? && op.tx.txid == t && !Refused(was, op.tx)) ||
            (t in was.transactions && SameButFlags(was.transactions[t], now.transactions[t]))
  {
    if op.Add? && !Refused(was, op.tx) && t != op.tx.txid {
      var a, b := was.transactions[t], now.transactions[t];
      forall i | 0 <= i < |a.outputs| ensures SameButFlag(a.outputs[i], b.outputs[i]) {
      }
    } else if t in was.transactions && !(op.Add? && !Refused(was, op.tx)) {
      assert was.transactions[t] == now.transactions[t];
      forall i | 0 <= i < |was.transactions[t].outputs|
        ensures SameButFlag(was.transactions[t].outputs[i], now.transactions[t].outputs[i])
      {
      }
    }
  }

  ghost predicate AddedBy(ops: seq<Operation>, n: nat, ov: OverlayView, t: Hash)
    requires n <= |ops|
  {
    exists j {:trigger ops[j]} :: 0 <= j < n && ops[j].Add? && ops[j].tx.txid == t && Faithful(ov, ops[j].tx)
  }

  /** In every run, a held transaction is held exactly as some earlier operation added it. */
  lemma {:induction false} HeldAsAdded(views: seq<OverlayView>, ops: seq<Operation>, i: nat, t: Hash)
    requires IsRun(views, ops) && i < |views| && t in views[i].transactions
    ensures AddedBy(ops, i, views[i], t)
  {
    RunExact(views, ops, i);
    if i > 0 {
      RunExact(views, ops, i - 1);
      var was, op, now := views[i - 1], ops[i - 1], views[i];
      StepCarries(was, op, now, t);
      if op.Add? && op.tx.txid == t && !Refused(was, op.tx) {
        AddedMirrors(was, op.rows, op.tx);
        assert Faithful(now, op.tx);
      } else {
        HeldAsAdded(views, ops, i - 1, t);
        var j :| 0 <= j < i - 1 && ops[j].Add? && ops[j].tx.txid == t && Faithful(was, ops[j].tx);
        FaithfulCarries(was, now, ops[j].tx);
      }
    }
  }

  // ----- one confirmed transaction

  /** Confirming is removing, except that entries for known previous outputs go whoever they belong to. */
  lemma {:induction false} ConfirmTxParts(ov: OverlayView, rows: Rows, txs: seq<Tx>, i: nat)
    requires 0 < i < |txs|
    ensures var known, plain := KnownPrevs(rows, txs[i].ins), Removed(ov, txs[i].txid);
            ConfirmTx(ov, rows, txs, i) == plain.(spentBy := plain.spentBy - known, outputs := plain.outputs - known)
  {
    var known, plain := KnownPrevs(rows, txs[i].ins), Removed(ov, txs[i].txid);
    if txs[i].txid in ov.transactions {
      var t := ov.transactions[txs[i].txid];
      assert ov.spentBy - known - Prevs(t.inputs) == ov.spentBy - Prevs(t.inputs) - known;
      assert ov.outputs - known - OutsOf(t.outputs) == ov.outputs - OutsOf(t.outputs) - known;
    }
  }

  lemma {:induction false} ExactWithout(plain: OverlayView, known: set<OutPoint>)
    requires Exact(plain)
    ensures Exact(plain.(spentBy := plain.spentBy - known, outputs := plain.outputs - known)) <==>
            forall o {:trigger o in known} :: o in known ==> o !in plain.spentBy && o !in plain.outputs
  {
    var after := plain.(spentBy := plain.spentBy - known, outputs := plain.outputs - known);
    if Exact(after) {
      IndexesDerived(after, plain);
      assert forall o :: o in known ==> o !in after.spentBy && o !in after.outputs;
    }
    if forall o :: o in known ==> o !in plain.spentBy && o !in plain.outputs {
      assert after.spentBy == plain.spentBy && after.outputs == plain.outputs;
    }
  }

  /** Confirming a transaction keeps the indexes exact unless it spends an output that another held transaction spends or makes. */
  lemma {:induction false} ConfirmTxExact(ov: OverlayView, rows: Rows, txs: seq<Tx>, i: nat)
    requires Exact(ov) && 0 < i < |txs|
    ensures Exact(ConfirmTx(ov, rows, txs, i)) <==>
            forall o {:trigger o in KnownPrevs(rows, txs[i].ins)} :: o in KnownPrevs(rows, txs[i].ins) ==>
              && (o in ov.spentBy ==> ov.spentBy[o] == txs[i].txid)
              && (o in ov.outputs ==> o.txid == txs[i].txid)
  {
    RemovedExact(ov, txs[i].txid);
    ConfirmTxParts(ov, rows, txs, i);
    ExactWithout(Removed(ov, txs[i].txid), KnownPrevs(rows, txs[i].ins));
    RemovedAt(ov, txs[i].txid);
  }

  /** Removing a transaction drops its spends and its outputs, and no other. */
  lemma {:induction false} RemovedAt(ov: OverlayView, txid: Hash)
    requires Exact(ov)
    ensures Removed(ov, txid).spentBy.Keys <= ov.spentBy.Keys && Removed(ov, txid).outputs.Keys <= ov.outputs.Keys
    ensures forall o {:trigger o in ov.spentBy} :: o in ov.spentBy ==> (o in Removed(ov, txid).spentBy <==> ov.spentBy[o] != txid)
    ensures forall o {:trigger o in ov.outputs} :: o in ov.outputs ==> (o in Removed(ov, txid).outputs <==> o.txid != txid)
  {
    forall o | o in ov.spentBy ensures o in Removed(ov, txid).spentBy <==> ov.spentBy[o] != txid {
      assert HasPrev(ov.transactions, ov.spentBy[o], o);
      if txid in ov.transactions && o in Prevs(ov.transactions[txid].inputs) {
        assert HasPrev(ov.transactions, txid, o);
      }
    }
    forall o | o in ov.outputs ensures o in Removed(ov, txid).outputs <==> o.txid != txid {
      assert HasOutput(ov.transactions, o.txid, ov.outputs[o]);
      if txid in ov.transactions && o in OutsOf(ov.transactions[txid].outputs) {
        var v :| v in ov.transactions[txid].outputs && v.out == o;
        assert HasOutput(ov.transactions, txid, v);
      }
    }
  }

  // ----- a block of held transactions

  ghost predicate HeldFrom(ov: OverlayView, txs: seq<Tx>, i: nat)
    requires i < |txs|
  {
    Mirrors(ov, txs[i]) && forall o {:trigger HasInput(txs[i].ins, o)} :: HasInput(txs[i].ins, o) ==> o !in ov.outputs
  }

  /** A coinbase on top of held transactions, none of which spends an output that the overlay lists. */
  ghost predicate Confirmable(rows: Rows, ov: OverlayView, txs: seq<Tx>) {
    && |txs| > 0 && DistinctTxids(txs) && NewTxids(rows, txs)
    && txs[0].txid !in ov.transactions
    && (forall o {:trigger o in ov.spentBy} :: o in ov.spentBy ==> o.txid != txs[0].txid)
    && (forall i {:trigger HeldFrom(ov, txs, i)} :: 1 <= i < |txs| ==> HeldFrom(ov, txs, i))
  }

  /** The transaction ids of the first n transactions but the coinbase. */
  ghost predicate Among(txs: seq<Tx>, n: nat, txid: Hash)
    requires n <= |txs|
  {
    exists i :: 1 <= i < n && txs[i].txid == txid
  }

  ghost predicate SpendLeft(was: map<OutPoint, Hash>, now: map<OutPoint, Hash>, txs: seq<Tx>, n: nat, o: OutPoint)
    requires n <= |txs|
  {
    && (o in now <==> o in was && !SpendsWithin(txs, n, o))
    && (o in now ==> now[o] == was[o])
  }

  ghost predicate OutputLeft(was: map<OutPoint, OutputView>, now: map<OutPoint, OutputView>, txs: seq<Tx>, n: nat, o: OutPoint)
    requires n <= |txs|
  {
    && (o in now <==> o in was && !Among(txs, n, o.txid))
    && (o in now ==> now[o] == was[o])
  }

  /** The overlay after n transactions of the block: those transactions, their spends and their outputs are gone, nothing else. */
  ghost predicate Left(ov: OverlayView, now: OverlayView, txs: seq<Tx>, n: nat)
    requires n <= |txs|
  {
    && Exact(now)
    && (forall o {:trigger SpendLeft(ov.spentBy, now.spentBy, txs, n, o)} :: SpendLeft(ov.spentBy, now.spentBy, txs, n, o))
    && (forall o {:trigger OutputLeft(ov.outputs, now.outputs, txs, n, o)} :: OutputLeft(ov.outputs, now.outputs, txs, n, o))
  }

  lemma {:induction false} HeldSpends(ov: OverlayView, txs: seq<Tx>, i: nat, o: OutPoint)
    requires Exact(ov) && i < |txs| && HeldFrom(ov, txs, i)
    ensures HasInput(txs[i].ins, o) <==> o in ov.spentBy && ov.spentBy[o] == txs[i].txid
  {
    var txid := txs[i].txid;
    if HasInput(txs[i].ins, o) {
      assert MirrorsInput(ov.transactions[txid], txs[i].ins, o);
      assert HasPrev(ov.transactions, txid, o);
    }
    if o in ov.spentBy && ov.spentBy[o] == txid {
      assert HasPrev(ov.transactions, txid, o);
      assert MirrorsInput(ov.transactions[txid], txs[i].ins, o);
    }
  }

  lemma {:induction false} AmongStep(txs: seq<Tx>, n: nat, txid: Hash)
    requires 1 <= n < |txs|
    ensures Among(txs, n + 1, txid) <==> Among(txs, n, txid) || txs[n].txid == txid
  {
    if Among(txs, n, txid) {
      var i :| 1 <= i < n && txs[i].txid == txid;
      assert 1 <= i < n + 1;
    }
  }

  lemma {:induction false} LeftStep(ov: OverlayView, now: OverlayView, rows: Rows, txs: seq<Tx>, n: nat)
    requires Exact(ov) && 1 <= n < |txs| && HeldFrom(ov, txs, n) && Left(ov, now, txs, n)
    ensures Left(ov, ConfirmTx(now, rows, txs, n), txs, n + 1)
  {
    var known, plain := KnownPrevs(rows, txs[n].ins), Removed(now, txs[n].txid);
    forall o ensures SpendLeft(ov.spentBy, plain.spentBy, txs, n + 1, o)
             ensures OutputLeft(ov.outputs, plain.outputs, txs, n + 1, o)
             ensures o in known ==> o !in plain.spentBy && o !in plain.outputs
    {
      LeftStepAt(ov, now, rows, txs, n, o);
    }
    RemovedExact(now, txs[n].txid);
    ConfirmTxParts(now, rows, txs, n);
    assert plain.spentBy - known == plain.spentBy && plain.outputs - known == plain.outputs;
  }

  lemma {:induction false} LeftStepAt(ov: OverlayView, now: OverlayView, rows: Rows, txs: seq<Tx>, n: nat, o: OutPoint)
    requires Exact(ov) && 1 <= n < |txs| && HeldFrom(ov, txs, n) && Exact(now)
    requires SpendLeft(ov.spentBy, now.spentBy, txs, n, o) && OutputLeft(ov.outputs, now.outputs, txs, n, o)
    ensures SpendLeft(ov.spentBy, Removed(now, txs[n].txid).spentBy, txs, n + 1, o)
    ensures OutputLeft(ov.outputs, Removed(now, txs[n].txid).outputs, txs, n + 1, o)
    ensures o in KnownPrevs(rows, txs[n].ins) ==> o !in Removed(now, txs[n].txid).spentBy && o !in Removed(now, txs[n].txid).outputs
  {
    RemovedAt(now, txs[n].txid);
    HeldSpends(ov, txs, n, o);
    SpendsStep(txs, n + 1, o);
    AmongStep(txs, n, o.txid);
    if o in KnownPrevs(rows, txs[n].ins) {
      KnownIsInput(rows, txs[n].ins, o);
    }
  }

  lemma {:induction false} KnownIsInput(rows: Rows, ins: seq<TxIn>, o: OutPoint)
    requires o in KnownPrevs(rows, ins)
    ensures HasInput(ins, o)
  {
    var i :| i in ins && !IsCoinbaseInput(i) && i.prev == o;
    assert i == TxIn(o);
  }

  lemma {:induction false} LeftNone(ov: OverlayView, txs: seq<Tx>)
    requires Exact(ov) && |txs| > 0
    ensures Left(ov, ov, txs, 1)
  {
  }

  lemma {:induction false} LeftAfter(ov: OverlayView, rows: Rows, txs: seq<Tx>, n: nat)
    requires Exact(ov) && Confirmable(rows, ov, txs) && 1 <= n <= |txs|
    ensures Left(ov, ConfirmBlock(ov, rows, txs, n), txs, n)
  {
    if n == 1 {
      LeftNone(ov, txs);
      assert ConfirmBlock(ov, rows, txs, 1) == ConfirmTx(ConfirmBlock(ov, rows, txs, 0), rows, txs, 0) == ov;
    } else {
      LeftAfter(ov, rows, txs, n - 1);
      assert HeldFrom(ov, txs, n - 1);
      LeftStep(ov, ConfirmBlock(ov, rows, txs, n - 1), rows, txs, n - 1);
    }
  }

  // ----- what a client sees

  /** o is on the unspent list of sh with value v, confirmed or not. */
  ghost predicate OnList(rows: Rows, ov: OverlayView, sh: Hash, o: OutPoint, v: int) {
    || (o in Except(Confirmed(rows, sh), ov.spentBy.Keys) && Confirmed(rows, sh)[o] == v)
    || (o in Spendable(ov, sh) && Spendable(ov, sh)[o] == v)
  }

  ghost predicate CoinbaseOutput(tx: Tx, sh: Hash, o: OutPoint, v: int) {
    && o.txid == tx.txid && o.vout < |tx.outs| && Indexable(tx.outs[o.vout])
    && tx.outs[o.vout].scripthash == sh && tx.outs[o.vout].value == v
  }

  /** A confirmed row for (sh, o) worth v. */
  ghost predicate RowWorth(rows: Rows, sh: Hash, o: OutPoint, v: int) {
    UtxoKey(sh, o) in rows.utxos && rows.utxos[UtxoKey(sh, o)].value == v
  }

  lemma {:induction false} OnListMeans(rows: Rows, ov: OverlayView, sh: Hash, o: OutPoint, v: int)
    requires FlagsExact(ov)
    ensures OnList(rows, ov, sh, o, v) <==>
            o !in ov.spentBy &&
            (RowWorth(rows, sh, o, v) || (o in ov.outputs && ov.outputs[o].scripthash == sh && ov.outputs[o].value == v))
  {
    assert o in OutsFor(rows, sh) <==> UtxoKey(sh, o) in rows.utxos by {
      if UtxoKey(sh, o) in rows.utxos {
        assert UtxoKey(sh, o).out == o;
      }
    }
  }

  lemma {:induction false} SpentIsUnlisted(rows: Rows, ov: OverlayView, txs: seq<Tx>, o: OutPoint)
    requires Exact(ov) && Confirmable(rows, ov, txs) && Spends(txs, o)
    ensures o in ov.spentBy && o !in ov.outputs && o.txid != txs[0].txid
  {
    var i :| 1 <= i < |txs| && HasInput(txs[i].ins, o);
    assert HeldFrom(ov, txs, i);
    HeldSpends(ov, txs, i, o);
  }

  lemma {:induction false} LeftFlags(rows: Rows, ov: OverlayView, now: OverlayView, txs: seq<Tx>)
    requires Exact(ov) && FlagsExact(ov) && Confirmable(rows, ov, txs) && Left(ov, now, txs, |txs|)
    ensures FlagsExact(now)
  {
    forall o | o in now.outputs
      ensures now.outputs[o].spentBy == if o in now.spentBy then Some(now.spentBy[o]) else None
    {
      assert SpendLeft(ov.spentBy, now.spentBy, txs, |txs|, o) && OutputLeft(ov.outputs, now.outputs, txs, |txs|, o);
      if Spends(txs, o) {
        SpentIsUnlisted(rows, ov, txs, o);
      }
    }
  }

  /** The block makes o, worth v to sh. */
  ghost predicate MakesWorth(txs: seq<Tx>, sh: Hash, o: OutPoint, v: int) {
    exists out :: Makes(txs, o, out) && out.scripthash == sh && out.value == v
  }

  lemma {:induction false} RowWorthAfter(rows: Rows, b: Block, height: int, order: Order, sh: Hash, o: OutPoint, v: int)
    requires Agreement(rows) && NewTxids(rows, b.txs) && DistinctTxids(b.txs)
    ensures RowWorth(IndexRows(rows, b, height, order), sh, o, v) <==>
            (RowWorth(rows, sh, o, v) && !Spends(b.txs, o)) || MakesWorth(b.txs, sh, o, v)
  {
    var k, after := UtxoKey(sh, o), IndexRows(rows, b, height, order);
    if RowWorth(after, sh, o, v) {
      IndexedUtxo(rows, b, height, order, k, after.utxos[k]);
      assert Holds(after.utxos, k, after.utxos[k]);
    }
    if RowWorth(rows, sh, o, v) && !Spends(b.txs, o) {
      IndexedUtxo(rows, b, height, order, k, rows.utxos[k]);
      assert Holds(rows.utxos, k, rows.utxos[k]);
    }
    if MakesWorth(b.txs, sh, o, v) {
      IndexedUtxo(rows, b, height, order, k, UtxoValue(v, height, b.header.hash));
      assert MadeRow(b, height, k, UtxoValue(v, height, b.header.hash));
    }
  }

  /** What the block makes is its coinbase's outputs and those the overlay listed for its other transactions. */
  lemma {:induction false} MadeIsListed(rows: Rows, ov: OverlayView, txs: seq<Tx>, sh: Hash, o: OutPoint, v: int)
    requires Exact(ov) && Confirmable(rows, ov, txs)
    ensures MakesWorth(txs, sh, o, v) <==>
            || CoinbaseOutput(txs[0], sh, o, v)
            || (Among(txs, |txs|, o.txid) && o in ov.outputs && ov.outputs[o].scripthash == sh && ov.outputs[o].value == v)
  {
    if CoinbaseOutput(txs[0], sh, o, v) {
      assert Makes(txs, o, txs[0].outs[o.vout]);
    }
    if MakesWorth(txs, sh, o, v) {
      var out :| Makes(txs, o, out) && out.scripthash == sh && out.value == v;
      var t :| 0 <= t < |txs| && txs[t].txid == o.txid && o.vout < |txs[t].outs| && txs[t].outs[o.vout] == out && Indexable(out);
      if t > 0 {
        assert HeldFrom(ov, txs, t) && MirrorsOutput(ov.outputs, txs[t], o.vout) && o == OutPoint(txs[t].txid, o.vout);
      }
    }
    if Among(txs, |txs|, o.txid) && o in ov.outputs && ov.outputs[o].scripthash == sh && ov.outputs[o].value == v {
      var t :| 1 <= t < |txs| && txs[t].txid == o.txid;
      assert HeldFrom(ov, txs, t) && MirrorsOutput(ov.outputs, txs[t], o.vout) && o == OutPoint(txs[t].txid, o.vout);
      assert Makes(txs, o, txs[t].outs[o.vout]);
    }
  }

  /** A block of held transactions and a coinbase changes no unspent list, but for the outputs of the coinbase. */
  lemma {:induction false} ConfirmKeepsUnspent(rows: Rows, ov: OverlayView, b: Block, height: int, order: Order,
                                               sh: Hash, o: OutPoint, v: int)
    requires Agreement(rows) && Exact(ov) && FlagsExact(ov) && Confirmable(rows, ov, b.txs)
    ensures OnList(IndexRows(rows, b, height, order), ConfirmBlock(ov, rows, b.txs, |b.txs|), sh, o, v) <==>
            OnList(rows, ov, sh, o, v) || CoinbaseOutput(b.txs[0], sh, o, v)
  {
    var now := ConfirmBlock(ov, rows, b.txs, |b.txs|);
    LeftAfter(ov, rows, b.txs, |b.txs|);
    ListKept(rows, IndexRows(rows, b, height, order), ov, now, b, height, order, sh, o, v);
  }

  lemma {:induction false} ListKept(rows: Rows, after: Rows, ov: OverlayView, now: OverlayView, b: Block, height: int, order: Order,
                                    sh: Hash, o: OutPoint, v: int)
    requires Agreement(rows) && Exact(ov) && FlagsExact(ov) && Confirmable(rows, ov, b.txs)
    requires after == IndexRows(rows, b, height, order) && Left(ov, now, b.txs, |b.txs|)
    ensures OnList(after, now, sh, o, v) <==> OnList(rows, ov, sh, o, v) || CoinbaseOutput(b.txs[0], sh, o, v)
  {
    LeftFlags(rows, ov, now, b.txs);
    OnListMeans(rows, ov, sh, o, v);
    OnListMeans(after, now, sh, o, v);
    RowWorthAfter(rows, b, height, order, sh, o, v);
    MadeIsListed(rows, ov, b.txs, sh, o, v);
    assert SpendLeft(ov.spentBy, now.spentBy, b.txs, |b.txs|, o) && OutputLeft(ov.outputs, now.outputs, b.txs, |b.txs|, o);
    if Spends(b.txs, o) {
      SpentIsUnlisted(rows, ov, b.txs, o);
    }
  }

  lemma {:induction false} NotInBlock(txs: seq<Tx>, txid: Hash)
    requires |txs| > 0 && txs[0].txid != txid && !Among(txs, |txs|, txid)
    ensures txid !in Elements(Txids(txs))
  {
    forall t | 0 <= t < |txs| ensures Txids(txs)[t] != txid {
    }
  }

  /** Afterwards the overlay is exact again, flags included, and still disjoint from the rows. */
  lemma {:induction false} ConfirmKeepsOverlay(rows: Rows, ov: OverlayView, b: Block, height: int, order: Order)
    requires Agreement(rows) && Exact(ov) && FlagsExact(ov) && Disjoint(rows, ov) && Confirmable(rows, ov, b.txs)
    ensures var now := ConfirmBlock(ov, rows, b.txs, |b.txs|);
            Exact(now) && FlagsExact(now) && Disjoint(IndexRows(rows, b, height, order), now)
  {
    var now, after := ConfirmBlock(ov, rows, b.txs, |b.txs|), IndexRows(rows, b, height, order);
    LeftAfter(ov, rows, b.txs, |b.txs|);
    LeftFlags(rows, ov, now, b.txs);
    forall o | o in now.outputs ensures o !in after.outpoints {
      assert OutputLeft(ov.outputs, now.outputs, b.txs, |b.txs|, o);
      assert HasOutput(ov.transactions, o.txid, ov.outputs[o]);
      NotInBlock(b.txs, o.txid);
      if o in after.outpoints {
        OutpointOrigin(rows, b, height, o);
      }
    }
  }
}
