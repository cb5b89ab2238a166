/** The mempool overlay on the heap: four maps updated in place, and output cells shared between two of them. */
module Mempool {
  import opened Types
  import opened Store
  import opened Overlay
  import opened Balance

  /** One mempool output. The owning transaction and the overlay's output map hold the same cell. */
  class OutputCell {
    const out: OutPoint
    const scripthash: Hash
    const value: int
    var spentBy: Option<Hash>

    constructor (out: OutPoint, scripthash: Hash, value: int)
      ensures View() == OutputView(out, scripthash, value, None)
    {
      this.out, this.scripthash, this.value, spentBy := out, scripthash, value, None;
    }

    ghost function View(): OutputView
      reads this
    {
      OutputView(out, scripthash, value, spentBy)
    }
  }

  /** The cells hold these outputs, in this order. */
  ghost predicate Shows(cells: seq<OutputCell>, views: seq<OutputView>)
    reads cells
  {
    |cells| == |views| && forall k :: 0 <= k < |cells| ==> cells[k].View() == views[k]
  }

  /** These cells belong to transaction t, one for each of its outputs. */
  ghost predicate Own(t: Hash, cells: seq<OutputCell>) {
    && (forall i :: 0 <= i < |cells| ==> cells[i].out.txid == t)
    && (forall i, j :: 0 <= i < j < |cells| ==> cells[i].out != cells[j].out)
  }

  ghost function CellSet(slots: seq<OutputCell>): set<OutputCell> {
    set c | c in slots
  }

  ghost predicate Within(slots: seq<OutputCell>, cells: set<OutputCell>) {
    forall c {:trigger c in slots} :: c in slots ==> c in cells
  }

  lemma {:induction false} ShownOwn(t: Hash, cells: seq<OutputCell>, views: seq<OutputView>)
    requires Shows(cells, views) && Split(t, views)
    ensures Own(t, cells)
  {
    forall i | 0 <= i < |cells| ensures cells[i].out == views[i].out {
      assert cells[i].View() == views[i];
    }
  }

  datatype MempoolTx = MempoolTx(inputs: seq<MempoolInput>, outputs: seq<OutputCell>, scripthashes: set<Hash>, fee: int)

  ghost predicate ShowsTx(held: MempoolTx, view: TxView)
    reads held.outputs
  {
    && held.inputs == view.inputs && held.scripthashes == view.scripthashes && held.fee == view.fee
    && Shows(held.outputs, view.outputs)
  }

  /** A transaction already held is ignored, and one that double-spends is refused. */
  datatype AddResult = AlreadyHeld | DoubleSpend | Accepted(scripthashes: set<Hash>)

  class MempoolOverlay {
    const store: Database
    var transactions: map<Hash, MempoolTx>
    var byScripthash: map<Hash, set<Hash>>
    var spentBy: map<OutPoint, Hash>
    var outputs: map<OutPoint, OutputCell>

    /** The overlay as a value, and the cells it owns. */
    ghost var view: OverlayView
    ghost var cells: set<OutputCell>

    /** A listed output is the cell of the transaction that made it. */
    ghost predicate CellsLinked()
      reads this
    {
      && (forall o {:trigger o in outputs} :: o in outputs ==>
            o.txid in transactions && outputs[o] in transactions[o.txid].outputs && outputs[o].out == o)
      && (forall t {:trigger t in transactions} :: t in transactions ==>
            Own(t, transactions[t].outputs) && Within(transactions[t].outputs, cells))
    }

    ghost predicate Valid()
      reads this, cells
    {
      && CellsLinked()
      && view.transactions.Keys == transactions.Keys
      && view.outputs.Keys == outputs.Keys
      && view.byScripthash == byScripthash
      && view.spentBy == spentBy
      && (forall t {:trigger t in transactions} :: t in transactions ==>
            assert forall c :: c in transactions[t].outputs ==> c in cells;
            ShowsTx(transactions[t], view.transactions[t]))
      && (forall o {:trigger o in outputs} :: o in outputs ==> outputs[o].View() == view.outputs[o])
    }

    constructor (store: Database)
      ensures this.store == store && Valid() && view == EMPTY_OVERLAY && cells == {}
    {
      this.store := store;
      transactions, byScripthash, spentBy, outputs := map[], map[], map[], map[];
      view, cells := EMPTY_OVERLAY, {};
    }

    // ----- adding

    method AddTransaction(tx: Tx) returns (r: AddResult)
      requires Valid()
      modifies this, cells
      ensures Valid() && fresh(cells - old(cells))
      ensures tx.txid in old(view).transactions ==> r == AlreadyHeld && view == old(view)
      ensures tx.txid !in old(view).transactions && !NoneSpent(old(view).spentBy, tx.ins) ==>
              r == DoubleSpend && view == old(view)
      ensures tx.txid !in old(view).transactions && NoneSpent(old(view).spentBy, tx.ins) ==>
              && r == Accepted(NewTx(old(view), old(store.db.rows), tx).scripthashes)
              && view == Added(old(view), old(store.db.rows), tx)
    {
      if tx.txid in transactions {
        return AlreadyHeld;
      }
      var ok, inputs, inputTotal, inputScripthashes := ResolveInputs(tx.ins);
      if !ok {
        return DoubleSpend;
      }
      var made, outputTotal, outputScripthashes := MakeOutputs(tx.txid, tx.outs);
      var scripthashes := inputScripthashes + outputScripthashes;
      NewOutputsSplit(tx.txid, tx.outs);
      var slots := Allocate(made);
      var held := MempoolTx(inputs, slots, scripthashes, Fee(inputTotal, outputTotal));
      Install(tx, held);
      r := Accepted(scripthashes);
    }

    /** Enters a transaction into the four maps. */
    method Install(tx: Tx, held: MempoolTx)
      requires Valid() && tx.txid !in transactions && ShowsTx(held, NewTx(view, store.db.rows, tx))
      modifies this, cells, held.outputs
      ensures Valid() && cells == old(cells) + CellSet(held.outputs)
      ensures view == Added(old(view), old(store.db.rows), tx)
    {
      ghost var rows := store.db.rows;
      EnterAll(tx, held, rows);
      AddedValid(rows, tx, held);
    }

    method EnterAll(tx: Tx, held: MempoolTx, ghost rows: Rows)
      requires Valid() && tx.txid !in transactions && ShowsTx(held, NewTx(view, store.db.rows, tx)) && rows == store.db.rows
      modifies this, cells, held.outputs
      ensures Installed(rows, tx, held)
    {
      InstallLinked(tx, held);
      Enter(tx.txid, held, Added(view, rows, tx));
    }

    /** The maps and the flags with the new transaction in them, and the view that should match. */
    twostate predicate Installed(rows: Rows, tx: Tx, held: MempoolTx)
      reads this, cells
    {
      && old(Valid()) && tx.txid !in old(transactions)
      && old(ShowsTx(held, NewTx(view, rows, tx))) && Own(tx.txid, held.outputs)
      && Entered(tx.txid, held) && view == Added(old(view), rows, tx)
    }

    method Enter(txid: Hash, held: MempoolTx, ghost after: OverlayView)
      requires CellsLinked() && txid !in transactions && Own(txid, held.outputs)
      modifies this`transactions, this`byScripthash, this`spentBy, this`outputs, this`cells, this`view, cells`spentBy, held.outputs`spentBy
      ensures Entered(txid, held) && view == after
    {
      view := after;
      Hold(txid, held);
      MarkSpends(txid, held.inputs);
      List(held.outputs);
    }

    lemma {:induction false} InstallLinked(tx: Tx, held: MempoolTx)
      requires Valid() && tx.txid !in transactions && ShowsTx(held, NewTx(view, store.db.rows, tx))
      ensures Own(tx.txid, held.outputs)
    {
      NewOutputsSplit(tx.txid, tx.outs);
      ShownOwn(tx.txid, held.outputs, NewOutputs(tx.txid, tx.outs));
    }

    /** Holds a transaction and files it under its scripthashes. */
    method Hold(txid: Hash, held: MempoolTx)
      requires CellsLinked() && txid !in transactions && Own(txid, held.outputs)
      modifies this`transactions, this`byScripthash, this`cells
      ensures transactions == old(transactions)[txid := held] && cells == old(cells) + CellSet(held.outputs)
      ensures byScripthash == WithTxid(old(byScripthash), held.scripthashes, txid)
      ensures CellsLinked()
    {
      var filed := FileUnder(byScripthash, held.scripthashes, txid);
      transactions, byScripthash, cells := transactions[txid := held], filed, cells + CellSet(held.outputs);
    }

    method List(slots: seq<OutputCell>)
      modifies this`outputs
      ensures outputs == PutCells(old(outputs), slots)
    {
      for i := 0 to |slots|
        invariant outputs == PutCells(old(outputs), slots[..i])
      {
        assert slots[..i + 1][..i] == slots[..i];
        outputs := outputs[slots[i].out := slots[i]];
      }
      assert slots[..|slots|] == slots;
    }

    /** Where an input comes from: a listed mempool output, else a confirmed row, else nowhere known. */
    function ResolveInput(o: OutPoint): (input: MempoolInput)
      requires Valid()
      reads this, store, cells
      ensures input == Resolve(view.outputs, store.db.rows, o)
    {
      var rows := store.db.rows;
      if o in outputs then MempoolInput(o, Some(outputs[o].scripthash), outputs[o].value, true)
      else if o !in rows.outpoints then MempoolInput(o, None, 0, false)
      else
        var k := UtxoKey(rows.outpoints[o], o);
        MempoolInput(o, Some(k.scripthash), if k in rows.utxos then rows.utxos[k].value else 0, false)
    }

    method ResolveInputs(ins: seq<TxIn>) returns (ok: bool, inputs: seq<MempoolInput>, total: int, scripthashes: set<Hash>)
      requires Valid()
      ensures ok <==> NoneSpent(view.spentBy, ins)
      ensures ok ==> inputs == Inputs(view.outputs, store.db.rows, ins)
      ensures ok ==> total == InputTotal(inputs) && scripthashes == InputScripthashes(inputs)
    {
      inputs, total, scripthashes := [], 0, {};
      for i := 0 to |ins|
        invariant NoneSpent(spentBy, ins[..i])
        invariant inputs == Inputs(view.outputs, store.db.rows, ins[..i])
        invariant total == InputTotal(inputs) && scripthashes == InputScripthashes(inputs)
      {
        InputsStep(view.outputs, store.db.rows, ins, i);
        NoneSpentStep(spentBy, ins, i);
        if !IsCoinbaseInput(ins[i]) {
          if ins[i].prev in spentBy {
            NoneSpentPrefix(spentBy, ins, i + 1);
            return false, [], 0, {};
          }
          var input := ResolveInput(ins[i].prev);
          InputsPlus(inputs, input);
          inputs, total := inputs + [input], total + input.value;
          scripthashes := scripthashes + if input.scripthash.Some? then {input.scripthash.value} else {};
        }
      }
      assert ins[..|ins|] == ins;
      ok := true;
    }

    static method MakeOutputs(txid: Hash, outs: seq<TxOut>) returns (made: seq<OutputView>, total: int, scripthashes: set<Hash>)
      ensures made == NewOutputs(txid, outs)
      ensures total == OutputTotal(made) && scripthashes == OutputScripthashes(made)
    {
      made, total, scripthashes := [], 0, {};
      for i := 0 to |outs|
        invariant made == NewOutputs(txid, outs[..i])
        invariant total == OutputTotal(made) && scripthashes == OutputScripthashes(made)
      {
        NewOutputsStep(txid, outs, i);
        if IsOpReturn(outs[i].script) || outs[i].value == 0 {
          continue;
        }
        var output := OutputView(OutPoint(txid, i), outs[i].scripthash, outs[i].value, None);
        OutputsPlus(made, output);
        made, total, scripthashes := made + [output], total + output.value, scripthashes + {output.scripthash};
      }
      assert outs[..|outs|] == outs;
    }

    /** Stores the outputs of a new transaction in cells of its own. */
    static method Allocate(made: seq<OutputView>) returns (slots: seq<OutputCell>)
      requires forall v :: v in made ==> v.spentBy == None
      ensures fresh(slots) && Shows(slots, made)
    {
      slots := [];
      for i := 0 to |made|
        invariant fresh(slots) && Shows(slots, made[..i])
      {
        var cell := new OutputCell(made[i].out, made[i].scripthash, made[i].value);
        slots := slots + [cell];
      }
      assert made[..|made|] == made;
    }

    static method FileUnder(index: map<Hash, set<Hash>>, scripthashes: set<Hash>, txid: Hash) returns (after: map<Hash, set<Hash>>)
      ensures after == WithTxid(index, scripthashes, txid)
    {
      after := index;
      var todo := scripthashes;
      ghost var done: set<Hash> := {};
      WithTxidNone(index, txid);
      while todo != {}
        invariant done <= scripthashes && forall x :: x in todo <==> x in scripthashes && x !in done
        invariant after == WithTxid(index, done, txid)
        decreases todo
      {
        var sh :| sh in todo;
        WithTxidStep(index, done, after, sh, txid);
        after := after[sh := (if sh in after then after[sh] else {}) + {txid}];
        todo, done := todo - {sh}, done + {sh};
      }
      assert done == scripthashes;
    }

    ghost predicate OwnedCell(c: OutputCell)
      reads this
    {
      c.out.txid in transactions && c in transactions[c.out.txid].outputs
    }

    /** A listed outpoint has one cell. */
    lemma {:induction false} OneCell(c: OutputCell, o: OutPoint)
      requires CellsLinked() && OwnedCell(c) && o in outputs
      ensures c.out == o <==> c == outputs[o]
    {
      assert Own(c.out.txid, transactions[c.out.txid].outputs);
    }

    /** Records the spends, and flags each spent output that is still listed. */
    method MarkSpends(txid: Hash, inputs: seq<MempoolInput>)
      requires CellsLinked()
      modifies this`spentBy, cells`spentBy
      ensures spentBy == WithSpends(old(spentBy), Prevs(inputs), txid)
      ensures Flagged(Prevs(inputs), txid)
    {
      ghost var prevs: set<OutPoint> := {};
      WithSpendsNone(spentBy, txid);
      for i := 0 to |inputs|
        invariant prevs == Prevs(inputs[..i])
        invariant spentBy == WithSpends(old(spentBy), prevs, txid)
        invariant Flagged(prevs, txid)
      {
        var o := inputs[i].prev;
        assert inputs[..i + 1] == inputs[..i] + [inputs[i]];
        PrevsPlus(inputs[..i], inputs[i]);
        WithSpendsStep(old(spentBy), prevs, o, txid);
        spentBy := spentBy[o := txid];
        Flag(o, txid);
        prevs := prevs + {o};
      }
      assert inputs[..|inputs|] == inputs;
    }

    /** Flags one output, if it is listed; no other cell changes. */
    method Flag(o: OutPoint, txid: Hash)
      requires CellsLinked()
      modifies cells`spentBy
      ensures forall c {:trigger OwnedCell(c)} :: OwnedCell(c) ==>
                c.spentBy == if c.out == o && o in outputs then Some(txid) else old(c.spentBy)
    {
      if o in outputs {
        forall c | OwnedCell(c) ensures c.out == o <==> c == outputs[o] {
          OneCell(c, o);
        }
        outputs[o].spentBy := Some(txid);
      }
    }

    static ghost function PutCells(m: map<OutPoint, OutputCell>, slots: seq<OutputCell>): map<OutPoint, OutputCell> {
      if slots == [] then m else
      var c := slots[|slots| - 1];
      PutCells(m, slots[..|slots| - 1])[c.out := c]
    }

    static lemma {:induction false} PutCellsAt(m: map<OutPoint, OutputCell>, slots: seq<OutputCell>, o: OutPoint)
      ensures o in PutCells(m, slots) <==> o in m || exists c :: c in slots && c.out == o
      ensures o in PutCells(m, slots) ==>
              if exists c :: c in slots && c.out == o
              then PutCells(m, slots)[o] in slots && PutCells(m, slots)[o].out == o
              else PutCells(m, slots)[o] == m[o]
    {
      if slots != [] {
        var init, last := slots[..|slots| - 1], slots[|slots| - 1];
        PutCellsAt(m, init, o);
        assert forall c :: c in slots <==> c in init || c == last;
      }
    }

    /** Every owned cell's flag after a spend by txid of these outpoints. */
    twostate predicate Flagged(prevs: set<OutPoint>, txid: Hash)
      reads this, cells
    {
      forall c {:trigger c.spentBy} :: c in cells && old(allocated(c)) && OwnedCell(c) ==>
        c.spentBy == if c.out in prevs && c.out in old(outputs) then Some(txid) else old(c.spentBy)
    }

    /** What the four maps and the flags look like once `held` has been entered under txid. */
    twostate predicate Entered(txid: Hash, held: MempoolTx)
      reads this, cells
    {
      && transactions == old(transactions)[txid := held]
      && byScripthash == WithTxid(old(byScripthash), held.scripthashes, txid)
      && spentBy == WithSpends(old(spentBy), Prevs(held.inputs), txid)
      && outputs == PutCells(old(outputs), held.outputs)
      && cells == old(cells) + CellSet(held.outputs)
      && Flagged(Prevs(held.inputs), txid)
    }

    /** The value view of the overlay is right again once a transaction is in all four maps. */
    twostate lemma AddedValid(new rows: Rows, new tx: Tx, held: MempoolTx)
      requires Installed(rows, tx, held)
      ensures Valid()
    {
      AddedLinked(tx, held);
      TxsShow(rows, tx, held);
      OutputsShow(rows, tx, held);
    }

    twostate lemma TxsShow(new rows: Rows, new tx: Tx, held: MempoolTx)
      requires Installed(rows, tx, held)
      ensures forall t {:trigger t in transactions} :: t in transactions ==> ShowsTx(transactions[t], view.transactions[t])
    {
      forall t | t in transactions ensures ShowsTx(transactions[t], view.transactions[t]) {
        TxShows(rows, tx, held, t);
      }
    }

    twostate lemma OutputsShow(new rows: Rows, new tx: Tx, held: MempoolTx)
      requires Installed(rows, tx, held)
      ensures outputs.Keys == view.outputs.Keys
      ensures forall o {:trigger o in outputs} :: o in outputs ==> outputs[o].View() == view.outputs[o]
    {
      NewShows(tx.txid, held.outputs, NewOutputs(tx.txid, tx.outs), Prevs(held.inputs));
      forall o ensures o in outputs <==> o in view.outputs ensures o in outputs ==> outputs[o].View() == view.outputs[o] {
        OutputShows(rows, tx, held, o);
      }
    }

    twostate lemma TxShows(new rows: Rows, new tx: Tx, held: MempoolTx, new t: Hash)
      requires old(Valid()) && tx.txid !in old(transactions)
      requires old(ShowsTx(held, NewTx(view, rows, tx))) && Own(tx.txid, held.outputs)
      requires Entered(tx.txid, held) && view == Added(old(view), rows, tx) && t in transactions
      ensures ShowsTx(transactions[t], view.transactions[t])
    {
      if t == tx.txid {
        NewShows(tx.txid, held.outputs, NewOutputs(tx.txid, tx.outs), Prevs(held.inputs));
      } else {
        KeptShows(t, Prevs(held.inputs), tx.txid);
      }
    }

    /** Every owned cell's flag after a spend by txid, where ownership has only grown. */
    twostate lemma CellFlag(c: OutputCell, new prevs: set<OutPoint>, new txid: Hash)
      requires Flagged(prevs, txid) && c in cells && OwnedCell(c)
      ensures c.View() == Marked(old(c.View()), prevs * old(outputs).Keys, txid)
    {
    }

    /** The cells of the new transaction keep their empty flags. */
    twostate lemma NewShows(new txid: Hash, slots: seq<OutputCell>, new views: seq<OutputView>, new prevs: set<OutPoint>)
      requires old(CellsLinked()) && txid !in old(transactions) && old(Shows(slots, views)) && Own(txid, slots)
      requires txid in transactions && transactions[txid].outputs == slots && Within(slots, cells)
      requires Flagged(prevs, txid)
      ensures Shows(slots, views)
    {
      forall k | 0 <= k < |slots| ensures slots[k].View() == views[k] {
        assert slots[k] in slots;
        assert slots[k].out !in old(outputs);
        CellFlag(slots[k], prevs, txid);
      }
    }

    /** The cells of a transaction that was held show its outputs with the new flags. */
    twostate lemma KeptShows(new t: Hash, new prevs: set<OutPoint>, new txid: Hash)
      requires old(Valid()) && t in old(transactions)
      requires t in transactions && transactions[t] == old(transactions)[t] && old(cells) <= cells
      requires Flagged(prevs, txid)
      ensures Shows(transactions[t].outputs, MarkedAll(old(view).transactions[t].outputs, prevs * old(outputs).Keys, txid))
    {
      var slots := transactions[t].outputs;
      assert old(ShowsTx(transactions[t], view.transactions[t]));
      forall k | 0 <= k < |slots|
        ensures slots[k].View() == Marked(old(view).transactions[t].outputs[k], prevs * old(outputs).Keys, txid)
      {
        assert slots[k] in slots;
        assert old(slots[k].View()) == old(view).transactions[t].outputs[k];
        CellFlag(slots[k], prevs, txid);
      }
    }

    twostate lemma OutputShows(new rows: Rows, new tx: Tx, held: MempoolTx, new o: OutPoint)
      requires old(Valid()) && tx.txid !in old(transactions) && Shows(held.outputs, NewOutputs(tx.txid, tx.outs))
      requires held.inputs == Inputs(old(view).outputs, rows, tx.ins)
      requires Entered(tx.txid, held) && view == Added(old(view), rows, tx)
      ensures o in outputs <==> o in view.outputs
      ensures o in outputs ==> outputs[o].View() == view.outputs[o]
    {
      var prevs := Prevs(held.inputs) * old(outputs).Keys;
      if o in old(outputs) {
        OldOutputShows(held, Prevs(held.inputs), tx.txid, o);
      }
      PutShows(old(outputs), KeptOutputs(old(view), prevs, tx.txid), held.outputs, NewOutputs(tx.txid, tx.outs), o);
    }

    twostate lemma OldOutputShows(held: MempoolTx, new prevs: set<OutPoint>, new txid: Hash, new o: OutPoint)
      requires old(Valid()) && o in old(outputs) && Flagged(prevs, txid)
      requires txid !in old(transactions) && transactions == old(transactions)[txid := held] && old(cells) <= cells
      ensures old(outputs)[o].View() == Marked(old(view).outputs[o], prevs * old(outputs).Keys, txid)
    {
      assert old(OwnedCell(outputs[o])) && old(outputs[o].View()) == old(view).outputs[o];
      CellFlag(old(outputs)[o], prevs, txid);
    }

    static lemma {:induction false} PutShows(m: map<OutPoint, OutputCell>, v: map<OutPoint, OutputView>,
                                             slots: seq<OutputCell>, views: seq<OutputView>, o: OutPoint)
      requires Shows(slots, views)
      requires o in m <==> o in v
      requires o in m ==> m[o].View() == v[o]
      ensures o in PutCells(m, slots) <==> o in PutOutputs(v, views)
      ensures o in PutCells(m, slots) ==> PutCells(m, slots)[o].View() == PutOutputs(v, views)[o]
    {
      if slots != [] {
        var n := |slots| - 1;
        PutShows(m, v, slots[..n], views[..n], o);
        assert slots[n].View() == views[n];
      }
    }

    twostate lemma AddedLinked(new tx: Tx, new held: MempoolTx)
      requires old(CellsLinked()) && tx.txid !in old(transactions) && Own(tx.txid, held.outputs)
      requires transactions == old(transactions)[tx.txid := held]
      requires outputs == PutCells(old(outputs), held.outputs)
      requires cells == old(cells) + CellSet(held.outputs)
      ensures CellsLinked()
    {
      forall o | o in outputs ensures o.txid in transactions && outputs[o] in transactions[o.txid].outputs && outputs[o].out == o {
        PutCellsAt(old(outputs), held.outputs, o);
      }
      forall t | t in transactions ensures Own(t, transactions[t].outputs) && Within(transactions[t].outputs, cells) {
        assert t != tx.txid ==> t in old(transactions);
      }
    }

    // ----- removing

    method RemoveTransaction(txid: Hash) returns (affected: set<Hash>)
      requires Valid()
      modifies this
      ensures Valid() && cells == old(cells)
      ensures view == Removed(old(view), txid)
      ensures affected == if txid in old(view).transactions then old(view).transactions[txid].scripthashes else {}
    {
      if txid !in transactions {
        return {};
      }
      var held := transactions[txid];
      Take(txid, held);
      view := Removed(view, txid);
      RemovedValid(txid, held);
      affected := held.scripthashes;
    }

    method Take(txid: Hash, held: MempoolTx)
      modifies this`transactions, this`byScripthash, this`spentBy, this`outputs
      ensures Taken(txid, held)
    {
      byScripthash := Unfile(byScripthash, held.scripthashes, txid);
      Unspend(held.inputs);
      Unlist(held.outputs);
      transactions := transactions - {txid};
    }

    twostate predicate Taken(txid: Hash, held: MempoolTx)
      reads this
    {
      && transactions == old(transactions) - {txid}
      && byScripthash == WithoutTxid(old(byScripthash), held.scripthashes, txid)
      && spentBy == old(spentBy) - Prevs(held.inputs)
      && outputs == old(outputs) - OutsIn(held.outputs)
    }

    static method Unfile(index: map<Hash, set<Hash>>, scripthashes: set<Hash>, txid: Hash) returns (after: map<Hash, set<Hash>>)
      ensures after == WithoutTxid(index, scripthashes, txid)
    {
      after := index;
      var todo := scripthashes;
      ghost var done: set<Hash> := {};
      WithTxidNone(index, txid);
      while todo != {}
        invariant done <= scripthashes && forall x :: x in todo <==> x in scripthashes && x !in done
        invariant after == WithoutTxid(index, done, txid)
        decreases todo
      {
        var sh :| sh in todo;
        WithoutTxidStep(index, done, after, sh, txid);
        if sh in after {
          var rest := after[sh] - {txid};
          after := if rest == {} then after - {sh} else after[sh := rest];
        }
        todo, done := todo - {sh}, done + {sh};
      }
      assert done == scripthashes;
    }

    method Unspend(inputs: seq<MempoolInput>)
      modifies this`spentBy
      ensures spentBy == old(spentBy) - Prevs(inputs)
    {
      for i := 0 to |inputs|
        invariant spentBy == old(spentBy) - Prevs(inputs[..i])
      {
        assert inputs[..i + 1] == inputs[..i] + [inputs[i]];
        PrevsPlus(inputs[..i], inputs[i]);
        spentBy := spentBy - {inputs[i].prev};
      }
      assert inputs[..|inputs|] == inputs;
    }

    static ghost function OutsIn(slots: seq<OutputCell>): set<OutPoint> {
      set c | c in slots :: c.out
    }

    method Unlist(slots: seq<OutputCell>)
      modifies this`outputs
      ensures outputs == old(outputs) - OutsIn(slots)
    {
      for i := 0 to |slots|
        invariant outputs == old(outputs) - OutsIn(slots[..i])
      {
        assert slots[..i + 1] == slots[..i] + [slots[i]];
        assert OutsIn(slots[..i + 1]) == OutsIn(slots[..i]) + {slots[i].out};
        outputs := outputs - {slots[i].out};
      }
      assert slots[..|slots|] == slots;
    }

    twostate lemma RemovedValid(new txid: Hash, held: MempoolTx)
      requires old(Valid()) && txid in old(transactions) && held == old(transactions)[txid]
      requires Taken(txid, held) && view == Removed(old(view), txid) && cells == old(cells)
      requires forall c :: c in cells ==> c.View() == old(c.View())
      ensures Valid()
    {
      assert old(ShowsTx(transactions[txid], view.transactions[txid]));
      SameOuts(held.outputs, old(view).transactions[txid].outputs);
      NoneListed(txid, held);
      forall t | t in transactions ensures ShowsTx(transactions[t], view.transactions[t]) {
        StillShows(t);
      }
    }

    /** None of its outputs is listed any more. */
    twostate lemma NoneListed(new txid: Hash, held: MempoolTx)
      requires old(CellsLinked()) && txid in old(transactions) && held == old(transactions)[txid] && Taken(txid, held)
      ensures forall o {:trigger o in outputs} :: o in outputs ==> o.txid != txid
    {
      forall o | o in outputs ensures o.txid != txid {
        assert old(o in outputs);
        assert outputs[o] in old(transactions)[o.txid].outputs;
        assert o in OutsIn(old(transactions)[o.txid].outputs);
      }
    }

    /** A transaction shows the same outputs while no flag changes. */
    twostate lemma StillShows(t: Hash)
      requires old(Valid()) && t in old(transactions)
      requires forall c :: c in old(cells) ==> c.View() == old(c.View())
      ensures ShowsTx(old(transactions)[t], old(view).transactions[t])
    {
      var slots := old(transactions)[t].outputs;
      assert old(ShowsTx(transactions[t], view.transactions[t]));
      forall k | 0 <= k < |slots| ensures slots[k].View() == old(view).transactions[t].outputs[k] {
        assert slots[k] in slots;
      }
    }

    twostate lemma SameOuts(slots: seq<OutputCell>, new views: seq<OutputView>)
      requires old(Shows(slots, views))
      ensures OutsIn(slots) == OutsOf(views)
    {
      forall k | 0 <= k < |slots| ensures slots[k].out == views[k].out {
        assert old(slots[k].View()) == views[k];
      }
      forall o ensures o in OutsIn(slots) <==> o in OutsOf(views) {
        if o in OutsIn(slots) {
          var k :| 0 <= k < |slots| && slots[k].out == o;
          assert views[k] in views;
        }
        if o in OutsOf(views) {
          var k :| 0 <= k < |views| && views[k].out == o;
          assert slots[k] in slots;
        }
      }
    }

    /** A confirmed spend takes the outpoint out of two of the maps, and leaves the transactions alone. */
    method RemoveOutput(o: OutPoint)
      requires Valid()
      modifies this`outputs, this`spentBy, this`view
      ensures Valid()
      ensures view == OutputRemoved(old(view), o)
    {
      outputs, spentBy := outputs - {o}, spentBy - {o};
      view := OutputRemoved(view, o);
      OutputRemovedValid(o);
    }

    twostate lemma OutputRemovedValid(o: OutPoint)
      requires old(Valid()) && transactions == old(transactions) && byScripthash == old(byScripthash) && cells == old(cells)
      requires outputs == old(outputs) - {o} && spentBy == old(spentBy) - {o} && view == OutputRemoved(old(view), o)
      requires forall c :: c in cells ==> c.View() == old(c.View())
      ensures Valid()
    {
      forall t | t in transactions ensures ShowsTx(transactions[t], view.transactions[t]) {
        StillShows(t);
      }
      forall p | p in outputs ensures outputs[p].View() == view.outputs[p] {
        assert old(p in outputs) && outputs[p] in cells;
      }
    }

    method Clear()
      modifies this
      ensures Valid() && view == EMPTY_OVERLAY && cells == {}
    {
      transactions, byScripthash, spentBy, outputs := map[], map[], map[], map[];
      view, cells := EMPTY_OVERLAY, {};
    }

    /** Drops every transaction that Core no longer holds. */
    method ReconcileWith(valid: set<Hash>) returns (removed: nat, affected: set<Hash>)
      requires Valid()
      modifies this
      ensures Valid() && cells == old(cells)
      ensures view == Reconciled(old(view), valid)
      ensures removed == |old(view).transactions.Keys - valid|
      ensures affected == ScripthashesOf(old(view).transactions, old(view).transactions.Keys - valid)
    {
      removed, affected := DropStale(valid);
      FilterStale(valid);
    }

    /** The outputs of dropped transactions and their spends go too. */
    method FilterStale(valid: set<Hash>)
      requires Valid() && view.transactions.Keys <= valid
      modifies this`outputs, this`spentBy, this`view
      ensures Valid()
      ensures view == old(view).(outputs := OutputsOf(old(view).outputs, valid), spentBy := SpendsOf(old(view).spentBy, valid))
    {
      NoneFiltered(valid);
      outputs := OutputsOf(outputs, valid);
      spentBy := SpendsOf(spentBy, valid);
      view := view.(spentBy := spentBy);
      StillValid();
    }

    lemma {:induction false} NoneFiltered(valid: set<Hash>)
      requires Valid() && view.transactions.Keys <= valid
      ensures OutputsOf(outputs, valid) == outputs && OutputsOf(view.outputs, valid) == view.outputs
    {
    }

    twostate lemma StillValid()
      requires old(Valid()) && transactions == old(transactions) && byScripthash == old(byScripthash) && cells == old(cells)
      requires outputs == old(outputs) && view == old(view).(spentBy := spentBy)
      requires forall c :: c in cells ==> c.View() == old(c.View())
      ensures Valid()
    {
      forall t | t in transactions ensures ShowsTx(transactions[t], view.transactions[t]) {
        StillShows(t);
      }
      forall p | p in outputs ensures outputs[p].View() == view.outputs[p] {
        assert old(p in outputs) && outputs[p] in cells;
      }
    }

    method DropStale(valid: set<Hash>) returns (removed: nat, affected: set<Hash>)
      requires Valid()
      modifies this
      ensures Valid() && cells == old(cells)
      ensures view == Dropped(old(view), old(view).transactions.Keys - valid)
      ensures removed == |old(view).transactions.Keys - valid|
      ensures affected == ScripthashesOf(old(view).transactions, old(view).transactions.Keys - valid)
    {
      affected, removed := {}, 0;
      ghost var was := view;
      var stale := transactions.Keys - valid;
      ghost var gone: set<Hash> := {};
      DroppedNone(was);
      while stale != {}
        invariant Valid() && cells == old(cells)
        invariant forall t :: t in stale <==> t in was.transactions && t !in valid && t !in gone
        invariant gone <= was.transactions.Keys - valid
        invariant view == Dropped(was, gone)
        invariant removed == |gone| && affected == ScripthashesOf(was.transactions, gone)
        decreases stale
      {
        var t :| t in stale;
        DroppedStep(was, gone, t);
        ScripthashesPlus(was.transactions, gone, t);
        var touched := RemoveTransaction(t);
        affected, removed := affected + touched, removed + 1;
        stale, gone := stale - {t}, gone + {t};
      }
      assert gone == was.transactions.Keys - valid;
    }

    // ----- reading

    function IsOutputSpent(o: OutPoint): (spent: bool)
      requires Valid()
      reads this, cells
      ensures spent <==> o in view.spentBy
    {
      o in spentBy
    }

    function GetScripthashTransactions(sh: Hash): (txids: set<Hash>)
      requires Valid()
      reads this, cells
      ensures txids == Filed(view, sh)
    {
      if sh in byScripthash then byScripthash[sh] else {}
    }

    method GetBalance(sh: Hash) returns (balance: int)
      requires Valid()
      ensures balance == MempoolBalance(view, sh)
    {
      balance := 0;
      var todo := GetScripthashTransactions(sh);
      ghost var done: set<Hash> := {};
      while todo != {}
        invariant done <= Filed(view, sh) && forall t :: t in todo <==> t in Filed(view, sh) && t !in done
        invariant balance == BalanceOf(view, sh, done)
        decreases todo
      {
        var t :| t in todo;
        if t in transactions {
          BalanceOfStep(view, sh, done, t);
          var made := AddOutputs(transactions[t].outputs, view.transactions[t].outputs, sh);
          var spent := AddInputs(transactions[t].inputs, sh);
          balance := balance + made - spent;
        } else {
          BalanceOfMissing(view, sh, done, t);
        }
        todo, done := todo - {t}, done + {t};
      }
      assert done == Filed(view, sh);
    }

    static method AddOutputs(slots: seq<OutputCell>, ghost views: seq<OutputView>, sh: Hash) returns (total: int)
      requires Shows(slots, views)
      ensures total == UnspentOutputs(views, sh)
    {
      total := 0;
      for i := 0 to |slots|
        invariant total == UnspentOutputs(views[..i], sh)
      {
        assert views[..i + 1][..i] == views[..i];
        assert slots[i].View() == views[i];
        if slots[i].scripthash == sh && slots[i].spentBy == None {
          total := total + slots[i].value;
        }
      }
      assert views[..|slots|] == views;
    }

    static method AddInputs(inputs: seq<MempoolInput>, sh: Hash) returns (total: int)
      ensures total == SpentInputs(inputs, sh)
    {
      total := 0;
      for i := 0 to |inputs|
        invariant total == SpentInputs(inputs[..i], sh)
      {
        assert inputs[..i + 1][..i] == inputs[..i];
        if inputs[i].scripthash == Some(sh) {
          total := total + inputs[i].value;
        }
      }
      assert inputs[..|inputs|] == inputs;
    }

    method GetUnspentOutputs(sh: Hash) returns (list: seq<Utxo>)
      requires Valid()
      ensures Spells(list, Spendable(view, sh))
      ensures Pending(list)
    {
      list := [];
      var todo := outputs.Keys;
      SpendableBounds(view, sh);
      while todo != {}
        invariant todo <= outputs.Keys
        invariant Spells(list, Except(Spendable(view, sh), todo))
        invariant Pending(list)
        decreases todo
      {
        var o :| o in todo;
        var cell := outputs[o];
        PendingPlus(list, Utxo(o, 0, cell.value));
        SpendableAt(view, sh, o);
        SpellsStep(list, Spendable(view, sh), todo, Utxo(o, 0, cell.value));
        assert cell.View() == view.outputs[o];
        if cell.scripthash == sh && cell.spentBy == None {
          list := list + [Utxo(o, 0, cell.value)];
        }
        todo := todo - {o};
      }
    }
  }
}
