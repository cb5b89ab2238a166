/** Overlay and rows that fit together: what keeps a held transaction's recorded inputs true. */
module Consistency {
  import opened Types
  import opened Store
  import opened Indexing
  import opened Replay
  import opened Overlay
  import opened Balance
  import opened Indexer
  import opened Attribution
  import opened Confirm

  /** Input i is still what resolving it would find. */
  ghost predicate StillResolves(outputs: map<OutPoint, OutputView>, rows: Rows, i: MempoolInput) {
    var now := Resolve(outputs, rows, i.prev);
    i.scripthash == now.scripthash && i.value == now.value
  }

  /** The part of `Current` that does not look at the overlay around the transaction. */
  ghost predicate WellFormed(t: TxView) {
    && t.scripthashes == InputScripthashes(t.inputs) + OutputScripthashes(t.outputs)
    && DistinctPrevs(t.inputs) && DistinctOuts(t.outputs)
  }

  lemma {:induction false} CurrentMeans(rows: Rows, ov: OverlayView, t: Hash)
    requires t in ov.transactions
    ensures Current(rows, ov, t) <==>
            && WellFormed(ov.transactions[t])
            && forall i {:trigger i in ov.transactions[t].inputs} :: i in ov.transactions[t].inputs ==> StillResolves(ov.outputs, rows, i)
  {
    var inputs := ov.transactions[t].inputs;
    if Current(rows, ov, t) {
      forall i | i in inputs ensures StillResolves(ov.outputs, rows, i) {
        var k :| 0 <= k < |inputs| && inputs[k] == i;
      }
    }
    if forall i {:trigger i in inputs} :: i in inputs ==> StillResolves(ov.outputs, rows, i) {
      forall k | 0 <= k < |inputs| ensures StillResolves(ov.outputs, rows, inputs[k]) {
        assert inputs[k] in inputs;
      }
    }
  }

  // ----- adding

  /** No transaction spends an output twice, which Core checks. */
  ghost predicate DistinctIns(ins: seq<TxIn>) {
    forall i, j :: 0 <= i < j < |ins| ==> ins[i].prev != ins[j].prev
  }

  lemma {:induction false} InputsDistinct(outputs: map<OutPoint, OutputView>, rows: Rows, ins: seq<TxIn>)
    requires DistinctIns(ins)
    ensures DistinctPrevs(Inputs(outputs, rows, ins))
  {
    if ins != [] {
      var init, last := ins[..|ins| - 1], ins[|ins| - 1];
      InputsDistinct(outputs, rows, init);
      var before := Inputs(outputs, rows, init);
      forall k | 0 <= k < |before| ensures before[k].prev != last.prev {
        assert before[k] in before;
        InputsExact(outputs, rows, init, before[k].prev);
        var x :| 0 <= x < |init| && init[x] == TxIn(before[k].prev);
      }
    }
  }

  lemma {:induction false} InputsHold(outputs: map<OutPoint, OutputView>, rows: Rows, ins: seq<TxIn>)
    ensures forall i {:trigger i in Inputs(outputs, rows, ins)} :: i in Inputs(outputs, rows, ins) ==> StillResolves(outputs, rows, i)
  {
    if ins != [] {
      InputsHold(outputs, rows, ins[..|ins| - 1]);
    }
  }

  /** Adding changes what resolving finds at the new transaction's own outputs only. */
  lemma {:induction false} ResolveAfterAdd(ov: OverlayView, rows: Rows, tx: Tx, i: MempoolInput)
    requires i.prev !in OutsOf(NewOutputs(tx.txid, tx.outs)) && StillResolves(ov.outputs, rows, i)
    ensures StillResolves(Added(ov, rows, tx).outputs, rows, i)
  {
    var t := NewTx(ov, rows, tx);
    PutOutputsAt(KeptOutputs(ov, Prevs(t.inputs) * ov.outputs.Keys, tx.txid), t.outputs, i.prev);
  }

  /** No held transaction, nor the new one, spends an output of the new one. */
  ghost predicate NoChild(ov: OverlayView, tx: Tx) {
    forall o {:trigger o in OutsOf(NewOutputs(tx.txid, tx.outs))} ::
      o in OutsOf(NewOutputs(tx.txid, tx.outs)) ==> o !in ov.spentBy && !HasInput(tx.ins, o)
  }

  lemma {:induction false} NewIsCurrent(ov: OverlayView, rows: Rows, tx: Tx)
    requires DistinctIns(tx.ins) && NoChild(ov, tx)
    ensures Current(rows, Added(ov, rows, tx), tx.txid)
  {
    var t, after := NewTx(ov, rows, tx), Added(ov, rows, tx);
    InputsDistinct(ov.outputs, rows, tx.ins);
    InputsHold(ov.outputs, rows, tx.ins);
    NewOutputsSplit(tx.txid, tx.outs);
    forall i | i in t.inputs ensures StillResolves(after.outputs, rows, i) {
      assert i.prev in Prevs(t.inputs);
      InputsExact(ov.outputs, rows, tx.ins, i.prev);
      ResolveAfterAdd(ov, rows, tx, i);
    }
    assert after.transactions[tx.txid] == t;
    CurrentMeans(rows, after, tx.txid);
  }

  lemma {:induction false} SameWellFormed(a: TxView, b: TxView)
    requires SameButFlags(a, b) && WellFormed(a)
    ensures WellFormed(b)
  {
    SameOutputs(a, b);
    forall i, j | 0 <= i < j < |b.outputs| ensures b.outputs[i].out != b.outputs[j].out {
      assert SameButFlag(a.outputs[i], b.outputs[i]) && SameButFlag(a.outputs[j], b.outputs[j]);
    }
  }

  lemma {:induction false} OldIsCurrent(ov: OverlayView, rows: Rows, tx: Tx, t: Hash)
    requires Exact(ov) && NoChild(ov, tx) && t in ov.transactions && t != tx.txid && Current(rows, ov, t)
    ensures Current(rows, Added(ov, rows, tx), t)
  {
    var after := Added(ov, rows, tx);
    var a, b := ov.transactions[t], after.transactions[t];
    CurrentMeans(rows, ov, t);
    forall i | 0 <= i < |a.outputs| ensures SameButFlag(a.outputs[i], b.outputs[i]) {
    }
    SameWellFormed(a, b);
    forall i | i in b.inputs ensures StillResolves(after.outputs, rows, i) {
      assert HasPrev(ov.transactions, t, i.prev);
      ResolveAfterAdd(ov, rows, tx, i);
    }
    CurrentMeans(rows, after, t);
  }

  /** Adding a transaction with distinct inputs and no waiting child keeps overlay and rows consistent. */
  lemma {:induction false} AddedConsistent(rows: Rows, ov: OverlayView, tx: Tx)
    requires Consistent(rows, ov) && tx.txid !in ov.transactions && NoneSpent(ov.spentBy, tx.ins)
    requires DistinctIns(tx.ins) && NoChild(ov, tx)
    ensures Consistent(rows, Added(ov, rows, tx))
  {
    var after := Added(ov, rows, tx);
    AddedExact(ov, rows, tx);
    AddedFlags(ov, rows, tx);
    forall t | t in after.transactions ensures Current(rows, after, t) {
      if t == tx.txid {
        NewIsCurrent(ov, rows, tx);
      } else {
        assert Current(rows, ov, t);
        OldIsCurrent(ov, rows, tx, t);
      }
    }
  }

  // ----- confirming

  /** With the two kinds of rows in agreement, resolving a confirmed output finds its row. */
  lemma {:induction false} ResolveConfirmed(outputs: map<OutPoint, OutputView>, rows: Rows, o: OutPoint, sh: Hash, v: int)
    requires Agreement(rows) && o !in outputs && RowWorth(rows, sh, o, v)
    ensures Resolve(outputs, rows, o) == MempoolInput(o, Some(sh), v, false)
  {
  }

  lemma {:induction false} RowOf(rows: Rows, o: OutPoint) returns (v: int)
    requires Agreement(rows) && o in rows.outpoints
    ensures RowWorth(rows, rows.outpoints[o], o, v)
  {
    assert UtxoKey(rows.outpoints[o], o) in rows.utxos;
    v := rows.utxos[UtxoKey(rows.outpoints[o], o)].value;
  }

  /** An outpoint that the block neither spends nor makes as coinbase resolves as before: from the overlay, from its row, or
      from the row the block made of a listed output. */
  lemma {:induction false} ResolveAfterBlock(rows: Rows, after: Rows, ov: OverlayView, now: OverlayView, b: Block, height: int,
                                             order: Order, i: MempoolInput)
    requires Agreement(rows) && Agreement(after) && after == IndexRows(rows, b, height, order)
    requires Exact(ov) && Confirmable(rows, ov, b.txs)
    requires OutputLeft(ov.outputs, now.outputs, b.txs, |b.txs|, i.prev)
    requires i.prev.txid != b.txs[0].txid && !Spends(b.txs, i.prev) && StillResolves(ov.outputs, rows, i)
    ensures StillResolves(now.outputs, after, i)
  {
    var o := i.prev;
    if o in ov.outputs {
      if Among(b.txs, |b.txs|, o.txid) {
        var sh, v := ov.outputs[o].scripthash, ov.outputs[o].value;
        MadeIsListed(rows, ov, b.txs, sh, o, v);
        RowWorthAfter(rows, b, height, order, sh, o, v);
        ResolveConfirmed(now.outputs, after, o, sh, v);
      }
    } else if o in rows.outpoints {
      var v := RowOf(rows, o);
      RowWorthAfter(rows, b, height, order, rows.outpoints[o], o, v);
      ResolveConfirmed(ov.outputs, rows, o, rows.outpoints[o], v);
      ResolveConfirmed(now.outputs, after, o, rows.outpoints[o], v);
    } else {
      StaysUnknown(rows, after, ov, b, height, order, o);
    }
  }

  lemma {:induction false} StaysUnknown(rows: Rows, after: Rows, ov: OverlayView, b: Block, height: int, order: Order, o: OutPoint)
    requires Agreement(rows) && Agreement(after) && after == IndexRows(rows, b, height, order)
    requires Exact(ov) && Confirmable(rows, ov, b.txs) && o.txid != b.txs[0].txid
    requires o !in ov.outputs && o !in rows.outpoints
    ensures o !in after.outpoints
  {
    if o in after.outpoints {
      var v := RowOf(after, o);
      RowWorthAfter(rows, b, height, order, after.outpoints[o], o, v);
      MadeIsListed(rows, ov, b.txs, after.outpoints[o], o, v);
    }
  }

  lemma {:induction false} LeftIsCurrent(rows: Rows, after: Rows, ov: OverlayView, now: OverlayView, b: Block, height: int,
                                         order: Order, t: Hash)
    requires Agreement(rows) && Agreement(after) && after == IndexRows(rows, b, height, order)
    requires Exact(ov) && Confirmable(rows, ov, b.txs) && Left(ov, now, b.txs, |b.txs|)
    requires t in ov.transactions && t in now.transactions && now.transactions[t] == ov.transactions[t] && Current(rows, ov, t)
    ensures Current(after, now, t)
  {
    CurrentMeans(rows, ov, t);
    forall i | i in now.transactions[t].inputs ensures StillResolves(now.outputs, after, i) {
      assert HasPrev(now.transactions, t, i.prev);
      assert SpendLeft(ov.spentBy, now.spentBy, b.txs, |b.txs|, i.prev);
      assert OutputLeft(ov.outputs, now.outputs, b.txs, |b.txs|, i.prev);
      ResolveAfterBlock(rows, after, ov, now, b, height, order, i);
    }
    CurrentMeans(after, now, t);
  }

  /** So does a block of held transactions and a coinbase. */
  lemma {:induction false} ConfirmedConsistent(rows: Rows, ov: OverlayView, b: Block, height: int, order: Order)
    requires Consistent(rows, ov) && Confirmable(rows, ov, b.txs)
    ensures Consistent(IndexRows(rows, b, height, order), ConfirmBlock(ov, rows, b.txs, |b.txs|))
  {
    var after, now := IndexRows(rows, b, height, order), ConfirmBlock(ov, rows, b.txs, |b.txs|);
    IndexKeepsAgreement(rows, b, height, order);
    LeftAfter(ov, rows, b.txs, |b.txs|);
    LeftFlags(rows, ov, now, b.txs);
    BlockShrinks(ov, rows, b.txs, |b.txs|);
    forall t | t in now.transactions ensures Current(after, now, t) {
      assert Current(rows, ov, t);
      LeftIsCurrent(rows, after, ov, now, b, height, order, t);
    }
  }

  lemma {:induction false} EmptyConsistent()
    ensures Consistent(EMPTY_ROWS, EMPTY_OVERLAY) && Disjoint(EMPTY_ROWS, EMPTY_OVERLAY)
  {
  }

  /** No output of the transaction is confirmed. */
  ghost predicate Unconfirmed(rows: Rows, tx: Tx) {
    forall o {:trigger o in rows.outpoints} :: o in rows.outpoints ==> o !in OutsOf(NewOutputs(tx.txid, tx.outs))
  }

  /** An unconfirmed transaction keeps overlay and rows apart. */
  lemma {:induction false} AddedDisjoint(rows: Rows, ov: OverlayView, tx: Tx)
    requires Disjoint(rows, ov) && Unconfirmed(rows, tx)
    ensures Disjoint(rows, Added(ov, rows, tx))
  {
    var t := NewTx(ov, rows, tx);
    var kept := KeptOutputs(ov, Prevs(t.inputs) * ov.outputs.Keys, tx.txid);
    forall o | o in PutOutputs(kept, t.outputs) ensures o !in rows.outpoints {
      PutOutputsAt(kept, t.outputs, o);
    }
  }

  // ----- dropping

  /** Parent and child are dropped together or not at all. */
  ghost predicate Severs(ov: OverlayView, ids: set<Hash>, o: OutPoint) {
    o in ov.outputs && o in ov.spentBy ==> (o.txid in ids <==> ov.spentBy[o] in ids)
  }

  ghost predicate Severable(ov: OverlayView, ids: set<Hash>) {
    forall o {:trigger Severs(ov, ids, o)} :: Severs(ov, ids, o)
  }

  lemma {:induction false} DroppedOutput(ov: OverlayView, ids: set<Hash>, o: OutPoint)
    requires Exact(ov) && ids <= ov.transactions.Keys
    ensures o in Dropped(ov, ids).outputs <==> o in ov.outputs && o.txid !in ids
    ensures o in Dropped(ov, ids).outputs ==> Dropped(ov, ids).outputs[o] == ov.outputs[o]
  {
    if o in ov.outputs {
      assert HasOutput(ov.transactions, o.txid, ov.outputs[o]) && ov.outputs[o].out == o;
    }
    if t :| t in ids && o in OutsOf(ov.transactions[t].outputs) {
      var v :| v in ov.transactions[t].outputs && v.out == o;
      assert HasOutput(ov.transactions, t, v);
    }
  }

  lemma {:induction false} DroppedSpend(ov: OverlayView, ids: set<Hash>, o: OutPoint)
    requires Exact(ov) && ids <= ov.transactions.Keys
    ensures o in Dropped(ov, ids).spentBy <==> o in ov.spentBy && ov.spentBy[o] !in ids
    ensures o in Dropped(ov, ids).spentBy ==> Dropped(ov, ids).spentBy[o] == ov.spentBy[o]
  {
    if o in ov.spentBy {
      assert HasPrev(ov.transactions, ov.spentBy[o], o);
    }
    if t :| t in ids && o in Prevs(ov.transactions[t].inputs) {
      assert HasPrev(ov.transactions, t, o);
    }
  }

  /** An output that stays has the right flag exactly if its spender, if any, stays too. */
  lemma {:induction false} DroppedFlag(ov: OverlayView, ids: set<Hash>, o: OutPoint)
    requires Exact(ov) && FlagsExact(ov) && ids <= ov.transactions.Keys && o in Dropped(ov, ids).outputs
    ensures var after := Dropped(ov, ids);
            after.outputs[o].spentBy == (if o in after.spentBy then Some(after.spentBy[o]) else None) <==> Severs(ov, ids, o)
  {
    DroppedOutput(ov, ids, o);
    DroppedSpend(ov, ids, o);
  }

  lemma {:induction false} LeftAlone(ov: OverlayView, rows: Rows, ids: set<Hash>, t: Hash)
    requires Exact(ov) && Severable(ov, ids) && ids <= ov.transactions.Keys && t in ov.transactions && t !in ids && Current(rows, ov, t)
    ensures Current(rows, Dropped(ov, ids), t)
  {
    var after := Dropped(ov, ids);
    CurrentMeans(rows, ov, t);
    forall i | i in after.transactions[t].inputs ensures StillResolves(after.outputs, rows, i) {
      assert HasPrev(ov.transactions, t, i.prev);
      DroppedOutput(ov, ids, i.prev);
      assert Severs(ov, ids, i.prev);
    }
    CurrentMeans(rows, after, t);
  }

  /** A child that outlives its parent has recorded an input that can no longer be resolved. */
  lemma {:induction false} OrphanIsStale(rows: Rows, ov: OverlayView, ids: set<Hash>, o: OutPoint)
    requires Consistent(rows, ov) && Disjoint(rows, ov) && ids <= ov.transactions.Keys
    requires o in ov.outputs && o in ov.spentBy && o.txid in ids && ov.spentBy[o] !in ids
    ensures ov.spentBy[o] in Dropped(ov, ids).transactions && !Current(rows, Dropped(ov, ids), ov.spentBy[o])
  {
    var t, after := ov.spentBy[o], Dropped(ov, ids);
    assert HasPrev(ov.transactions, t, o);
    assert Current(rows, ov, t);
    CurrentMeans(rows, ov, t);
    CurrentMeans(rows, after, t);
    var i :| i in ov.transactions[t].inputs && i.prev == o;
    DroppedOutput(ov, ids, o);
    assert StillResolves(ov.outputs, rows, i) && !StillResolves(after.outputs, rows, i);
  }

  lemma {:induction false} SeveredIsWrong(rows: Rows, ov: OverlayView, ids: set<Hash>, o: OutPoint)
    requires Consistent(rows, ov) && Disjoint(rows, ov) && ids <= ov.transactions.Keys && !Severs(ov, ids, o)
    ensures !Consistent(rows, Dropped(ov, ids))
  {
    if o.txid in ids {
      OrphanIsStale(rows, ov, ids, o);
    } else {
      DroppedOutput(ov, ids, o);
      DroppedFlag(ov, ids, o);
    }
  }

  lemma {:induction false} SeverableConsistent(rows: Rows, ov: OverlayView, ids: set<Hash>)
    requires Consistent(rows, ov) && ids <= ov.transactions.Keys && Severable(ov, ids)
    ensures Consistent(rows, Dropped(ov, ids))
  {
    var after := Dropped(ov, ids);
    DroppedExact(ov, ids);
    forall o | o in after.outputs
      ensures after.outputs[o].spentBy == if o in after.spentBy then Some(after.spentBy[o]) else None
    {
      assert Severs(ov, ids, o);
      DroppedFlag(ov, ids, o);
    }
    forall t | t in after.transactions ensures Current(rows, after, t) {
      assert Current(rows, ov, t);
      LeftAlone(ov, rows, ids, t);
    }
  }

  /** Dropping transactions keeps overlay and rows consistent if and only if no parent is parted from a child. */
  lemma {:induction false} DroppedConsistent(rows: Rows, ov: OverlayView, ids: set<Hash>)
    requires Consistent(rows, ov) && Disjoint(rows, ov) && ids <= ov.transactions.Keys
    ensures Consistent(rows, Dropped(ov, ids)) <==> Severable(ov, ids)
    ensures Disjoint(rows, Dropped(ov, ids))
  {
    if Severable(ov, ids) {
      SeverableConsistent(rows, ov, ids);
    } else {
      var o :| !Severs(ov, ids, o);
      SeveredIsWrong(rows, ov, ids, o);
    }
  }

  /** Removing one transaction: exactly if it spends no other's listed output and no other spends one of its own. */
  lemma {:induction false} RemovedConsistent(rows: Rows, ov: OverlayView, txid: Hash)
    requires Consistent(rows, ov) && Disjoint(rows, ov) && txid in ov.transactions
    ensures Consistent(rows, Removed(ov, txid)) <==> Severable(ov, {txid})
    ensures Disjoint(rows, Removed(ov, txid))
  {
    DroppedNone(ov);
    DroppedStep(ov, {}, txid);
    assert {} + {txid} == {txid};
    DroppedConsistent(rows, ov, {txid});
  }

  /** Reconciling with Core: exactly if what goes is closed under parents and children. */
  lemma {:induction false} ReconciledConsistent(rows: Rows, ov: OverlayView, valid: set<Hash>)
    requires Consistent(rows, ov) && Disjoint(rows, ov)
    ensures Consistent(rows, Reconciled(ov, valid)) <==> Severable(ov, ov.transactions.Keys - valid)
    ensures Disjoint(rows, Reconciled(ov, valid))
  {
    ReconciledExact(ov, valid);
    DroppedConsistent(rows, ov, ov.transactions.Keys - valid);
  }

  // ----- every run

  datatype Change =
    | Enters(tx: Tx)
    | Leaves(txid: Hash)
    | Reconciles(valid: set<Hash>)
    | Mines(b: Block, height: int, order: Order)

  ghost predicate Applies(rows: Rows, ov: OverlayView, change: Change, rows': Rows, ov': OverlayView) {
    match change
    case Enters(tx) =>
      && rows' == rows && ov' == Added(ov, rows, tx)
      && tx.txid !in ov.transactions && NoneSpent(ov.spentBy, tx.ins) && DistinctIns(tx.ins) && NoChild(ov, tx) && Unconfirmed(rows, tx)
    case Leaves(txid) => txid in ov.transactions && Severable(ov, {txid}) && rows' == rows && ov' == Removed(ov, txid)
    case Reconciles(valid) => Severable(ov, ov.transactions.Keys - valid) && rows' == rows && ov' == Reconciled(ov, valid)
    case Mines(b, height, order) =>
      Confirmable(rows, ov, b.txs) && rows' == IndexRows(rows, b, height, order) && ov' == ConfirmBlock(ov, rows, b.txs, |b.txs|)
  }

  lemma {:induction false} ChangeConsistent(rows: Rows, ov: OverlayView, change: Change, rows': Rows, ov': OverlayView)
    requires Consistent(rows, ov) && Disjoint(rows, ov) && Applies(rows, ov, change, rows', ov')
    ensures Consistent(rows', ov') && Disjoint(rows', ov')
  {
    match change {
      case Enters(tx) =>
        AddedConsistent(rows, ov, tx);
        AddedDisjoint(rows, ov, tx);
      case Leaves(txid) => RemovedConsistent(rows, ov, txid);
      case Reconciles(valid) => ReconciledConsistent(rows, ov, valid);
      case Mines(b, height, order) =>
        ConfirmedConsistent(rows, ov, b, height, order);
        ConfirmKeepsOverlay(rows, ov, b, height, order);
    }
  }

  ghost predicate IsRecord(rows: seq<Rows>, views: seq<OverlayView>, changes: seq<Change>) {
    && |rows| == |views| == |changes| + 1 && rows[0] == EMPTY_ROWS && views[0] == EMPTY_OVERLAY
    && forall i {:trigger changes[i]} :: 0 <= i < |changes| ==> Applies(rows[i], views[i], changes[i], rows[i + 1], views[i + 1])
  }

  /** In every run in which children arrive after their parents, leave with them and are mined after them, overlay and rows
      are consistent, so that the balances add up. */
  lemma {:induction false} AlwaysConsistent(rows: seq<Rows>, views: seq<OverlayView>, changes: seq<Change>, i: nat)
    requires IsRecord(rows, views, changes) && i < |rows|
    ensures Consistent(rows[i], views[i]) && Disjoint(rows[i], views[i])
  {
    if i == 0 {
      EmptyConsistent();
    } else {
      AlwaysConsistent(rows, views, changes, i - 1);
      ChangeConsistent(rows[i - 1], views[i - 1], changes[i - 1], rows[i], views[i]);
    }
  }
}
