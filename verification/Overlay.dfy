/** The mempool overlay as a value: held transactions and the three indexes derived from them. */
module Overlay {
  import opened Types
  import opened Store

  /** An input as resolved when its transaction was added; None where its output is not indexed. */
  datatype MempoolInput = MempoolInput(prev: OutPoint, scripthash: Option<Hash>, value: int, fromMempool: bool)

  datatype OutputView = OutputView(out: OutPoint, scripthash: Hash, value: int, spentBy: Option<Hash>)

  datatype TxView = TxView(inputs: seq<MempoolInput>, outputs: seq<OutputView>, scripthashes: set<Hash>, fee: int)

  datatype OverlayView = OverlayView(
    transactions: map<Hash, TxView>,
    byScripthash: map<Hash, set<Hash>>,
    spentBy: map<OutPoint, Hash>,
    outputs: map<OutPoint, OutputView>)

  const EMPTY_OVERLAY := OverlayView(map[], map[], map[], map[])

  function Prevs(inputs: seq<MempoolInput>): set<OutPoint> {
    set i | i in inputs :: i.prev
  }

  function OutsOf(outputs: seq<OutputView>): set<OutPoint> {
    set o | o in outputs :: o.out
  }

  // ----- adding

  /** The overlay is asked first, the confirmed rows second. */
  function Resolve(outputs: map<OutPoint, OutputView>, rows: Rows, o: OutPoint): MempoolInput {
    if o in outputs then MempoolInput(o, Some(outputs[o].scripthash), outputs[o].value, true)
    else if o in rows.outpoints then
      var k := UtxoKey(rows.outpoints[o], o);
      MempoolInput(o, Some(k.scripthash), if k in rows.utxos then rows.utxos[k].value else 0, false)
    else MempoolInput(o, None, 0, false)
  }

  function Inputs(outputs: map<OutPoint, OutputView>, rows: Rows, ins: seq<TxIn>): seq<MempoolInput> {
    if ins == [] then [] else
    var last := ins[|ins| - 1];
    Inputs(outputs, rows, ins[..|ins| - 1]) + if IsCoinbaseInput(last) then [] else [Resolve(outputs, rows, last.prev)]
  }

  function NewOutputs(txid: Hash, outs: seq<TxOut>): seq<OutputView> {
    if outs == [] then [] else
    var n := |outs| - 1;
    NewOutputs(txid, outs[..n]) +
    if Indexable(outs[n]) then [OutputView(OutPoint(txid, n), outs[n].scripthash, outs[n].value, None)] else []
  }

  function InputTotal(inputs: seq<MempoolInput>): int {
    if inputs == [] then 0 else InputTotal(inputs[..|inputs| - 1]) + inputs[|inputs| - 1].value
  }

  function OutputTotal(outputs: seq<OutputView>): int {
    if outputs == [] then 0 else OutputTotal(outputs[..|outputs| - 1]) + outputs[|outputs| - 1].value
  }

  /** Unresolved inputs count as zero, and the fee is zero unless the resolved inputs cover the outputs. */
  function Fee(inputs: int, outputs: int): int {
    if inputs > 0 && inputs >= outputs then inputs - outputs else 0
  }

  function InputScripthashes(inputs: seq<MempoolInput>): set<Hash> {
    set i | i in inputs && i.scripthash.Some? :: i.scripthash.value
  }

  function OutputScripthashes(outputs: seq<OutputView>): set<Hash> {
    set o | o in outputs :: o.scripthash
  }

  function NewTx(ov: OverlayView, rows: Rows, tx: Tx): TxView {
    var inputs := Inputs(ov.outputs, rows, tx.ins);
    var outputs := NewOutputs(tx.txid, tx.outs);
    TxView(inputs, outputs, InputScripthashes(inputs) + OutputScripthashes(outputs),
           Fee(InputTotal(inputs), OutputTotal(outputs)))
  }

  /** The totals are sums over the lists. */
  lemma {:induction false} TotalsAdd(a: seq<MempoolInput>, i: MempoolInput, b: seq<OutputView>, o: OutputView)
    ensures InputTotal([]) == 0 && InputTotal(a + [i]) == InputTotal(a) + i.value
    ensures OutputTotal([]) == 0 && OutputTotal(b + [o]) == OutputTotal(b) + o.value
  {
    assert (a + [i])[..|a|] == a && (b + [o])[..|b|] == b;
  }

  /** A fee is never negative, and it makes up the difference of the totals if and only if the inputs cover the outputs: the
      known ones, if there are any. */
  lemma {:induction false} FeeBalances(ov: OverlayView, rows: Rows, tx: Tx)
    ensures var t := NewTx(ov, rows, tx);
            && t.fee >= 0
            && (InputTotal(t.inputs) > 0 ==>
                  (InputTotal(t.inputs) == OutputTotal(t.outputs) + t.fee <==> InputTotal(t.inputs) >= OutputTotal(t.outputs)))
            && (t.fee > 0 ==> 0 < InputTotal(t.inputs) == OutputTotal(t.outputs) + t.fee)
  {
  }

  /** No real input is already spent by a held transaction. */
  ghost predicate NoneSpent(spentBy: map<OutPoint, Hash>, ins: seq<TxIn>) {
    forall o {:trigger o in spentBy} :: HasInput(ins, o) ==> o !in spentBy
  }

  function Marked(o: OutputView, prevs: set<OutPoint>, txid: Hash): OutputView {
    if o.out in prevs then o.(spentBy := Some(txid)) else o
  }

  /** The flags of the outputs a new transaction spends, where the overlay still lists them. */
  function MarkedAll(outputs: seq<OutputView>, prevs: set<OutPoint>, txid: Hash): seq<OutputView> {
    seq(|outputs|, i requires 0 <= i < |outputs| => Marked(outputs[i], prevs, txid))
  }

  function WithTxid(index: map<Hash, set<Hash>>, scripthashes: set<Hash>, txid: Hash): map<Hash, set<Hash>> {
    map sh | sh in index.Keys + scripthashes ::
      if sh in scripthashes then (if sh in index then index[sh] else {}) + {txid} else index[sh]
  }

  function WithoutTxid(index: map<Hash, set<Hash>>, scripthashes: set<Hash>, txid: Hash): map<Hash, set<Hash>> {
    map sh | sh in index && !(sh in scripthashes && index[sh] <= {txid}) ::
      if sh in scripthashes then index[sh] - {txid} else index[sh]
  }

  function PutOutputs(m: map<OutPoint, OutputView>, outputs: seq<OutputView>): map<OutPoint, OutputView> {
    if outputs == [] then m else
    var o := outputs[|outputs| - 1];
    PutOutputs(m, outputs[..|outputs| - 1])[o.out := o]
  }

  /** The held transactions after `txid` is added: their outputs' flags may change, nothing else. */
  function Kept(ov: OverlayView, prevs: set<OutPoint>, txid: Hash): map<Hash, TxView> {
    map id | id in ov.transactions ::
      ov.transactions[id].(outputs := MarkedAll(ov.transactions[id].outputs, prevs, txid))
  }

  function KeptOutputs(ov: OverlayView, prevs: set<OutPoint>, txid: Hash): map<OutPoint, OutputView> {
    map o | o in ov.outputs :: Marked(ov.outputs[o], prevs, txid)
  }

  function WithSpends(spentBy: map<OutPoint, Hash>, prevs: set<OutPoint>, txid: Hash): map<OutPoint, Hash> {
    map o | o in spentBy.Keys + prevs :: if o in prevs then txid else spentBy[o]
  }

  function Added(ov: OverlayView, rows: Rows, tx: Tx): OverlayView {
    var t := NewTx(ov, rows, tx);
    var prevs := Prevs(t.inputs) * ov.outputs.Keys;
    OverlayView(
      Kept(ov, prevs, tx.txid)[tx.txid := t],
      WithTxid(ov.byScripthash, t.scripthashes, tx.txid),
      WithSpends(ov.spentBy, Prevs(t.inputs), tx.txid),
      PutOutputs(KeptOutputs(ov, prevs, tx.txid), t.outputs))
  }

  lemma {:induction false} InputsStep(outputs: map<OutPoint, OutputView>, rows: Rows, ins: seq<TxIn>, i: nat)
    requires i < |ins|
    ensures Inputs(outputs, rows, ins[..i + 1]) ==
            Inputs(outputs, rows, ins[..i]) + if IsCoinbaseInput(ins[i]) then [] else [Resolve(outputs, rows, ins[i].prev)]
  {
    assert ins[..i + 1][..i] == ins[..i];
  }

  lemma {:induction false} NoneSpentStep(spentBy: map<OutPoint, Hash>, ins: seq<TxIn>, i: nat)
    requires i < |ins|
    ensures NoneSpent(spentBy, ins[..i + 1]) <==>
            NoneSpent(spentBy, ins[..i]) && (IsCoinbaseInput(ins[i]) || ins[i].prev !in spentBy)
  {
    assert ins[..i + 1] == ins[..i] + [ins[i]];
    assert forall x :: x in ins[..i + 1] <==> x in ins[..i] || x == ins[i];
    if NoneSpent(spentBy, ins[..i + 1]) && !IsCoinbaseInput(ins[i]) {
      assert TxIn(ins[i].prev) == ins[i];
      assert HasInput(ins[..i + 1], ins[i].prev);
    }
  }

  lemma {:induction false} NoneSpentPrefix(spentBy: map<OutPoint, Hash>, ins: seq<TxIn>, i: nat)
    requires i <= |ins|
    ensures NoneSpent(spentBy, ins) ==> NoneSpent(spentBy, ins[..i])
  {
    assert forall x :: x in ins[..i] ==> x in ins;
  }

  lemma {:induction false} InputsPlus(inputs: seq<MempoolInput>, x: MempoolInput)
    ensures InputTotal(inputs + [x]) == InputTotal(inputs) + x.value
    ensures InputScripthashes(inputs + [x]) ==
            InputScripthashes(inputs) + if x.scripthash.Some? then {x.scripthash.value} else {}
  {
    assert (inputs + [x])[..|inputs|] == inputs;
    assert forall y :: y in inputs + [x] <==> y in inputs || y == x;
  }

  lemma {:induction false} NewOutputsStep(txid: Hash, outs: seq<TxOut>, i: nat)
    requires i < |outs|
    ensures NewOutputs(txid, outs[..i + 1]) ==
            NewOutputs(txid, outs[..i]) +
            if Indexable(outs[i]) then [OutputView(OutPoint(txid, i), outs[i].scripthash, outs[i].value, None)] else []
  {
    assert outs[..i + 1][..i] == outs[..i];
  }

  lemma {:induction false} OutputsPlus(outputs: seq<OutputView>, v: OutputView)
    ensures OutputTotal(outputs + [v]) == OutputTotal(outputs) + v.value
    ensures OutputScripthashes(outputs + [v]) == OutputScripthashes(outputs) + {v.scripthash}
  {
    assert (outputs + [v])[..|outputs|] == outputs;
    assert forall x :: x in outputs + [v] <==> x in outputs || x == v;
  }

  lemma {:induction false} WithSpendsNone(spentBy: map<OutPoint, Hash>, txid: Hash)
    ensures WithSpends(spentBy, {}, txid) == spentBy
  {
  }

  lemma {:induction false} WithSpendsStep(spentBy: map<OutPoint, Hash>, prevs: set<OutPoint>, o: OutPoint, txid: Hash)
    ensures WithSpends(spentBy, prevs + {o}, txid) == WithSpends(spentBy, prevs, txid)[o := txid]
  {
  }

  /** Outputs of one transaction, each at its own position. */
  ghost predicate Split(txid: Hash, outputs: seq<OutputView>) {
    && (forall i :: 0 <= i < |outputs| ==> outputs[i].out.txid == txid)
    && (forall i, j :: 0 <= i < j < |outputs| ==> outputs[i].out.vout < outputs[j].out.vout)
  }

  lemma {:induction false} NewOutputsSplit(txid: Hash, outs: seq<TxOut>)
    ensures Split(txid, NewOutputs(txid, outs))
    ensures forall v :: v in NewOutputs(txid, outs) ==> v.spentBy == None && v.out.vout < |outs|
  {
    if outs != [] {
      NewOutputsSplit(txid, outs[..|outs| - 1]);
    }
  }

  // ----- removing

  function Removed(ov: OverlayView, txid: Hash): OverlayView {
    if txid !in ov.transactions then ov else
    var t := ov.transactions[txid];
    OverlayView(ov.transactions - {txid},
                WithoutTxid(ov.byScripthash, t.scripthashes, txid),
                ov.spentBy - Prevs(t.inputs),
                ov.outputs - OutsOf(t.outputs))
  }

  function ScripthashesOf(txs: map<Hash, TxView>, ids: set<Hash>): set<Hash> {
    set t, sh | t in ids && t in txs && sh in txs[t].scripthashes :: sh
  }

  lemma {:induction false} ScripthashesPlus(txs: map<Hash, TxView>, ids: set<Hash>, t: Hash)
    requires t in txs
    ensures ScripthashesOf(txs, ids + {t}) == ScripthashesOf(txs, ids) + txs[t].scripthashes
  {
    var all := ScripthashesOf(txs, ids + {t});
    forall sh | sh in txs[t].scripthashes ensures sh in all {
      assert t in ids + {t} && t in txs && sh in txs[t].scripthashes;
    }
    forall sh | sh in ScripthashesOf(txs, ids) ensures sh in all {
      var u :| u in ids && u in txs && sh in txs[u].scripthashes;
      assert u in ids + {t};
    }
  }

  function OutputRemoved(ov: OverlayView, o: OutPoint): OverlayView {
    ov.(outputs := ov.outputs - {o}, spentBy := ov.spentBy - {o})
  }

  lemma {:induction false} WithTxidNone(index: map<Hash, set<Hash>>, txid: Hash)
    ensures WithTxid(index, {}, txid) == index
    ensures WithoutTxid(index, {}, txid) == index
  {
  }

  lemma {:induction false} WithTxidStep(index: map<Hash, set<Hash>>, done: set<Hash>, was: map<Hash, set<Hash>>, sh: Hash, txid: Hash)
    requires sh !in done && was == WithTxid(index, done, txid)
    ensures WithTxid(index, done + {sh}, txid) == was[sh := (if sh in was then was[sh] else {}) + {txid}]
  {
  }

  lemma {:induction false} WithoutTxidStep(index: map<Hash, set<Hash>>, done: set<Hash>, was: map<Hash, set<Hash>>, sh: Hash, txid: Hash)
    requires sh !in done && was == WithoutTxid(index, done, txid)
    ensures WithoutTxid(index, done + {sh}, txid) ==
            if sh !in was then was
            else if was[sh] - {txid} == {} then was - {sh} else was[sh := was[sh] - {txid}]
  {
    assert sh in was <==> sh in index;
    assert sh in was ==> was[sh] == index[sh];
    assert sh in index ==> (index[sh] <= {txid} <==> index[sh] - {txid} == {});
  }

  // ----- the indexes are exactly what the held transactions say

  ghost predicate Lists(index: map<Hash, set<Hash>>, sh: Hash, t: Hash) {
    sh in index && t in index[sh]
  }

  ghost predicate Touches(txs: map<Hash, TxView>, t: Hash, sh: Hash) {
    t in txs && sh in txs[t].scripthashes
  }

  ghost predicate HasPrev(txs: map<Hash, TxView>, t: Hash, o: OutPoint) {
    t in txs && o in Prevs(txs[t].inputs)
  }

  ghost predicate HasOutput(txs: map<Hash, TxView>, t: Hash, v: OutputView) {
    t in txs && v in txs[t].outputs
  }

  ghost predicate ExactScripthashes(txs: map<Hash, TxView>, index: map<Hash, set<Hash>>) {
    && (forall sh, t {:trigger Lists(index, sh, t)} {:trigger Touches(txs, t, sh)} ::
          Lists(index, sh, t) <==> Touches(txs, t, sh))
    && (forall sh {:trigger sh in index} :: sh in index ==> index[sh] != {})
  }

  ghost predicate ExactSpends(txs: map<Hash, TxView>, spentBy: map<OutPoint, Hash>) {
    && (forall t, o {:trigger HasPrev(txs, t, o)} :: HasPrev(txs, t, o) ==> o in spentBy && spentBy[o] == t)
    && (forall o {:trigger o in spentBy} :: o in spentBy ==> HasPrev(txs, spentBy[o], o))
  }

  ghost predicate ExactOutputs(txs: map<Hash, TxView>, outputs: map<OutPoint, OutputView>) {
    && (forall t, v {:trigger HasOutput(txs, t, v)} ::
          HasOutput(txs, t, v) ==> v.out.txid == t && v.out in outputs && outputs[v.out] == v)
    && (forall o {:trigger o in outputs} :: o in outputs ==> HasOutput(txs, o.txid, outputs[o]) && outputs[o].out == o)
  }

  ghost predicate Exact(ov: OverlayView) {
    && ExactScripthashes(ov.transactions, ov.byScripthash)
    && ExactSpends(ov.transactions, ov.spentBy)
    && ExactOutputs(ov.transactions, ov.outputs)
  }

  /** The three indexes are determined by the held transactions. */
  lemma {:induction false} IndexesDerived(a: OverlayView, b: OverlayView)
    requires Exact(a) && Exact(b) && a.transactions == b.transactions
    ensures a == b
  {
    SameBuckets(a.transactions, a.byScripthash, b.byScripthash);
    assert a.spentBy == b.spentBy;
    assert a.outputs == b.outputs;
  }

  lemma {:induction false} SameBuckets(txs: map<Hash, TxView>, a: map<Hash, set<Hash>>, b: map<Hash, set<Hash>>)
    requires ExactScripthashes(txs, a) && ExactScripthashes(txs, b)
    ensures a == b
  {
    forall sh | sh in a ensures sh in b && a[sh] == b[sh] {
      SameBucket(txs, a, b, sh);
    }
    forall sh | sh in b ensures sh in a {
      SameBucket(txs, b, a, sh);
    }
  }

  lemma {:induction false} SameBucket(txs: map<Hash, TxView>, a: map<Hash, set<Hash>>, b: map<Hash, set<Hash>>, sh: Hash)
    requires ExactScripthashes(txs, a) && ExactScripthashes(txs, b) && sh in a
    ensures sh in b && a[sh] == b[sh]
  {
    forall t ensures Lists(a, sh, t) <==> Lists(b, sh, t) {
    }
    var t :| t in a[sh];
    assert Lists(a, sh, t);
    assert forall x :: x in a[sh] ==> Lists(a, sh, x);
    assert forall x :: x in b[sh] ==> Lists(b, sh, x);
  }

  /** No two held transactions share an input. */
  lemma {:induction false} NoSharedInputs(ov: OverlayView, s: Hash, t: Hash, o: OutPoint)
    requires Exact(ov) && HasPrev(ov.transactions, s, o) && HasPrev(ov.transactions, t, o)
    ensures s == t
  {
  }

  lemma {:induction false} InputsExact(outputs: map<OutPoint, OutputView>, rows: Rows, ins: seq<TxIn>, o: OutPoint)
    ensures o in Prevs(Inputs(outputs, rows, ins)) <==> HasInput(ins, o)
  {
    if ins != [] {
      var init, last := ins[..|ins| - 1], ins[|ins| - 1];
      InputsExact(outputs, rows, init, o);
      assert forall i :: i in ins <==> i in init || i == last;
      var a, b := Inputs(outputs, rows, init), Inputs(outputs, rows, ins);
      if IsCoinbaseInput(last) {
        assert b == a;
      } else {
        assert b == a + [Resolve(outputs, rows, last.prev)];
        PrevsPlus(a, Resolve(outputs, rows, last.prev));
      }
    }
  }

  lemma {:induction false} PrevsPlus(inputs: seq<MempoolInput>, i: MempoolInput)
    ensures Prevs(inputs + [i]) == Prevs(inputs) + {i.prev}
  {
    assert forall x :: x in inputs + [i] <==> x in inputs || x == i;
  }

  lemma {:induction false} NewOutputsExact(txid: Hash, outs: seq<TxOut>, v: OutputView)
    ensures v in NewOutputs(txid, outs) <==>
            && v.out.txid == txid && v.out.vout < |outs| && Indexable(outs[v.out.vout])
            && v == OutputView(v.out, outs[v.out.vout].scripthash, outs[v.out.vout].value, None)
  {
    if outs != [] {
      NewOutputsExact(txid, outs[..|outs| - 1], v);
    }
  }

  lemma {:induction false} PutOutputsAt(m: map<OutPoint, OutputView>, outputs: seq<OutputView>, o: OutPoint)
    ensures o in PutOutputs(m, outputs) <==> o in m || o in OutsOf(outputs)
    ensures o !in OutsOf(outputs) && o in m ==> PutOutputs(m, outputs)[o] == m[o]
    ensures o in OutsOf(outputs) ==> PutOutputs(m, outputs)[o] in outputs && PutOutputs(m, outputs)[o].out == o
  {
    if outputs != [] {
      var init, last := outputs[..|outputs| - 1], outputs[|outputs| - 1];
      PutOutputsAt(m, init, o);
      assert forall x :: x in outputs <==> x in init || x == last;
    }
  }

  // ----- every operation keeps the indexes exact

  lemma {:induction false} EmptyExact()
    ensures Exact(EMPTY_OVERLAY)
  {
  }

  lemma {:induction false} RemovedExact(ov: OverlayView, txid: Hash)
    requires Exact(ov)
    ensures Exact(Removed(ov, txid))
  {
    if txid in ov.transactions {
      RemovedScripthashes(ov, txid);
      RemovedSpends(ov, txid);
      RemovedOutputs(ov, txid);
    }
  }

  // ----- dropping several at once

  function AmongFiled(txs: map<Hash, TxView>, ids: set<Hash>, sh: Hash): set<Hash> {
    set t | t in ids && t in txs && sh in txs[t].scripthashes
  }

  /** A bucket goes when the last of its transactions does. */
  function WithoutTxids(index: map<Hash, set<Hash>>, txs: map<Hash, TxView>, ids: set<Hash>): map<Hash, set<Hash>> {
    map sh | sh in index && !(AmongFiled(txs, ids, sh) != {} && index[sh] <= AmongFiled(txs, ids, sh)) ::
      index[sh] - AmongFiled(txs, ids, sh)
  }

  function PrevsOfAll(txs: map<Hash, TxView>, ids: set<Hash>): set<OutPoint> {
    set t, o | t in ids && t in txs && o in Prevs(txs[t].inputs) :: o
  }

  function OutsOfAll(txs: map<Hash, TxView>, ids: set<Hash>): set<OutPoint> {
    set t, o | t in ids && t in txs && o in OutsOf(txs[t].outputs) :: o
  }

  /** Without these transactions, their filings, their spends and their outputs; the order of removal does not matter. */
  function Dropped(ov: OverlayView, ids: set<Hash>): OverlayView {
    OverlayView(ov.transactions - ids,
                WithoutTxids(ov.byScripthash, ov.transactions, ids),
                ov.spentBy - PrevsOfAll(ov.transactions, ids),
                ov.outputs - OutsOfAll(ov.transactions, ids))
  }

  /** What Core no longer holds is dropped, and then whatever the indexes still list of transactions Core does not hold. */
  function Reconciled(ov: OverlayView, valid: set<Hash>): OverlayView {
    var left := Dropped(ov, ov.transactions.Keys - valid);
    left.(outputs := OutputsOf(left.outputs, valid), spentBy := SpendsOf(left.spentBy, valid))
  }

  function OutputsOf<T>(m: map<OutPoint, T>, valid: set<Hash>): map<OutPoint, T> {
    map o | o in m && o.txid in valid :: m[o]
  }

  function SpendsOf(m: map<OutPoint, Hash>, valid: set<Hash>): map<OutPoint, Hash> {
    map o | o in m && m[o] in valid :: m[o]
  }

  lemma {:induction false} DroppedNone(ov: OverlayView)
    ensures Dropped(ov, {}) == ov
  {
    assert PrevsOfAll(ov.transactions, {}) == {} && OutsOfAll(ov.transactions, {}) == {};
    assert forall sh :: AmongFiled(ov.transactions, {}, sh) == {};
    forall sh | sh in ov.byScripthash ensures ov.byScripthash[sh] - AmongFiled(ov.transactions, {}, sh) == ov.byScripthash[sh] {
    }
    assert WithoutTxids(ov.byScripthash, ov.transactions, {}) == ov.byScripthash;
    assert ov.transactions - {} == ov.transactions && ov.spentBy - {} == ov.spentBy && ov.outputs - {} == ov.outputs;
  }

  /** Removing one more transaction drops one more. */
  lemma {:induction false} DroppedStep(ov: OverlayView, ids: set<Hash>, t: Hash)
    requires t in ov.transactions && t !in ids
    ensures t in Dropped(ov, ids).transactions && Dropped(ov, ids).transactions[t] == ov.transactions[t]
    ensures Removed(Dropped(ov, ids), t) == Dropped(ov, ids + {t})
  {
    var txs, one, all := ov.transactions, ov.transactions[t], ids + {t};
    assert txs - ids - {t} == txs - all;
    assert PrevsOfAll(txs, all) == PrevsOfAll(txs, ids) + Prevs(one.inputs);
    assert ov.spentBy - PrevsOfAll(txs, ids) - Prevs(one.inputs) == ov.spentBy - PrevsOfAll(txs, all);
    assert OutsOfAll(txs, all) == OutsOfAll(txs, ids) + OutsOf(one.outputs);
    assert ov.outputs - OutsOfAll(txs, ids) - OutsOf(one.outputs) == ov.outputs - OutsOfAll(txs, all);
    WithoutTxidsStep(ov.byScripthash, txs, ids, t);
  }

  lemma {:induction false} WithoutTxidsStep(index: map<Hash, set<Hash>>, txs: map<Hash, TxView>, ids: set<Hash>, t: Hash)
    requires t in txs && t !in ids
    ensures WithoutTxid(WithoutTxids(index, txs, ids), txs[t].scripthashes, t) == WithoutTxids(index, txs, ids + {t})
  {
    forall sh ensures AmongFiled(txs, ids + {t}, sh) == AmongFiled(txs, ids, sh) + if sh in txs[t].scripthashes then {t} else {} {
    }
    var a, b := WithoutTxid(WithoutTxids(index, txs, ids), txs[t].scripthashes, t), WithoutTxids(index, txs, ids + {t});
    forall sh ensures (sh in a <==> sh in b) && (sh in a ==> a[sh] == b[sh]) {
      if sh in index {
        BucketStep(index[sh], AmongFiled(txs, ids, sh), t);
      }
    }
  }

  lemma {:induction false} BucketStep(bucket: set<Hash>, gone: set<Hash>, t: Hash)
    ensures bucket - gone <= {t} <==> bucket <= gone + {t}
    ensures bucket - gone - {t} == bucket - (gone + {t})
  {
  }

  lemma {:induction false} DroppedExact(ov: OverlayView, ids: set<Hash>)
    requires Exact(ov) && ids <= ov.transactions.Keys
    ensures Exact(Dropped(ov, ids))
  {
    if ids == {} {
      DroppedNone(ov);
    } else {
      var t :| t in ids;
      var rest := ids - {t};
      DroppedExact(ov, rest);
      RemovedExact(Dropped(ov, rest), t);
      DroppedStep(ov, rest, t);
      assert rest + {t} == ids;
    }
  }

  /** On an exact overlay the second pass finds nothing. */
  lemma {:induction false} ReconciledExact(ov: OverlayView, valid: set<Hash>)
    requires Exact(ov)
    ensures Reconciled(ov, valid) == Dropped(ov, ov.transactions.Keys - valid) && Exact(Reconciled(ov, valid))
  {
    var left := Dropped(ov, ov.transactions.Keys - valid);
    DroppedExact(ov, ov.transactions.Keys - valid);
    assert Reconciled(ov, valid).outputs == left.outputs by {
      forall o | o in left.outputs ensures o.txid in valid {
        assert HasOutput(left.transactions, o.txid, left.outputs[o]);
      }
    }
    assert Reconciled(ov, valid).spentBy == left.spentBy by {
      forall o | o in left.spentBy ensures left.spentBy[o] in valid {
        assert HasPrev(left.transactions, left.spentBy[o], o);
      }
    }
  }

  lemma {:induction false} RemovedScripthashes(ov: OverlayView, txid: Hash)
    requires ExactScripthashes(ov.transactions, ov.byScripthash) && txid in ov.transactions
    ensures ExactScripthashes(ov.transactions - {txid},
                              WithoutTxid(ov.byScripthash, ov.transactions[txid].scripthashes, txid))
  {
    var was, txs := ov.byScripthash, ov.transactions - {txid};
    var index := WithoutTxid(was, ov.transactions[txid].scripthashes, txid);
    forall sh, t ensures Lists(index, sh, t) <==> Touches(txs, t, sh) {
      assert Lists(was, sh, t) <==> Touches(ov.transactions, t, sh);
      assert Lists(was, sh, txid) <==> Touches(ov.transactions, txid, sh);
      assert Lists(index, sh, t) <==> Lists(was, sh, t) && t != txid;
    }
  }

  lemma {:induction false} RemovedSpends(ov: OverlayView, txid: Hash)
    requires ExactSpends(ov.transactions, ov.spentBy) && txid in ov.transactions
    ensures ExactSpends(ov.transactions - {txid}, ov.spentBy - Prevs(ov.transactions[txid].inputs))
  {
    var txs := ov.transactions - {txid};
    forall t, o ensures HasPrev(txs, t, o) <==> HasPrev(ov.transactions, t, o) && t != txid {
    }
    assert forall o :: o in Prevs(ov.transactions[txid].inputs) ==> HasPrev(ov.transactions, txid, o);
  }

  lemma {:induction false} RemovedOutputs(ov: OverlayView, txid: Hash)
    requires ExactOutputs(ov.transactions, ov.outputs) && txid in ov.transactions
    ensures ExactOutputs(ov.transactions - {txid}, ov.outputs - OutsOf(ov.transactions[txid].outputs))
  {
    var txs, outputs := ov.transactions - {txid}, ov.outputs - OutsOf(ov.transactions[txid].outputs);
    forall t, v ensures HasOutput(txs, t, v) <==> HasOutput(ov.transactions, t, v) && t != txid {
    }
    forall o | o in OutsOf(ov.transactions[txid].outputs) ensures o.txid == txid {
      var v :| v in ov.transactions[txid].outputs && v.out == o;
      assert HasOutput(ov.transactions, txid, v);
    }
    forall o | o in outputs ensures HasOutput(txs, o.txid, outputs[o]) && outputs[o].out == o {
      assert HasOutput(ov.transactions, o.txid, outputs[o]);
      assert o in OutsOf(ov.transactions[o.txid].outputs);
    }
  }

  lemma {:induction false} AddedExact(ov: OverlayView, rows: Rows, tx: Tx)
    requires Exact(ov) && tx.txid !in ov.transactions && NoneSpent(ov.spentBy, tx.ins)
    ensures Exact(Added(ov, rows, tx))
  {
    var t := NewTx(ov, rows, tx);
    var prevs := Prevs(t.inputs) * ov.outputs.Keys;
    var txs := Kept(ov, prevs, tx.txid)[tx.txid := t];
    assert txs == Added(ov, rows, tx).transactions;
    AddedScripthashes(ov, txs, t, tx.txid);
    forall o | o in Prevs(t.inputs) ensures o !in ov.spentBy {
      InputsExact(ov.outputs, rows, tx.ins, o);
    }
    AddedSpends(ov, txs, t, tx.txid);
    forall v | v in t.outputs ensures v.out.txid == tx.txid && v.spentBy == None {
      NewOutputsExact(tx.txid, tx.outs, v);
    }
    forall v, w | v in t.outputs && w in t.outputs && v.out == w.out ensures v == w {
      NewOutputsExact(tx.txid, tx.outs, v);
      NewOutputsExact(tx.txid, tx.outs, w);
    }
    AddedOutputs(ov, prevs, t, tx.txid);
  }

  lemma {:induction false} AddedScripthashes(ov: OverlayView, txs: map<Hash, TxView>, t: TxView, txid: Hash)
    requires ExactScripthashes(ov.transactions, ov.byScripthash) && txid !in ov.transactions
    requires txs.Keys == ov.transactions.Keys + {txid} && txs[txid] == t
    requires forall id :: id in ov.transactions ==> txs[id].scripthashes == ov.transactions[id].scripthashes
    ensures ExactScripthashes(txs, WithTxid(ov.byScripthash, t.scripthashes, txid))
  {
    var index := WithTxid(ov.byScripthash, t.scripthashes, txid);
    forall sh, id ensures Lists(index, sh, id) <==> Touches(txs, id, sh) {
      assert Lists(ov.byScripthash, sh, id) <==> Touches(ov.transactions, id, sh);
      assert Lists(index, sh, id) <==> Lists(ov.byScripthash, sh, id) || (sh in t.scripthashes && id == txid);
    }
    forall sh | sh in index ensures index[sh] != {} {
      if sh in t.scripthashes {
        assert txid in index[sh];
      }
    }
  }

  lemma {:induction false} AddedSpends(ov: OverlayView, txs: map<Hash, TxView>, t: TxView, txid: Hash)
    requires ExactSpends(ov.transactions, ov.spentBy) && txid !in ov.transactions
    requires txs.Keys == ov.transactions.Keys + {txid} && txs[txid] == t
    requires forall id :: id in ov.transactions ==> txs[id].inputs == ov.transactions[id].inputs
    requires forall o :: o in Prevs(t.inputs) ==> o !in ov.spentBy
    ensures ExactSpends(txs, WithSpends(ov.spentBy, Prevs(t.inputs), txid))
  {
    var spentBy := WithSpends(ov.spentBy, Prevs(t.inputs), txid);
    forall id, o ensures HasPrev(txs, id, o) <==>
                         HasPrev(ov.transactions, id, o) || (id == txid && o in Prevs(t.inputs))
    {
    }
    forall id, o | HasPrev(txs, id, o) ensures o in spentBy && spentBy[o] == id {
      assert HasPrev(ov.transactions, id, o) || (id == txid && o in Prevs(t.inputs));
    }
    forall o | o in spentBy ensures HasPrev(txs, spentBy[o], o) {
      assert o !in Prevs(t.inputs) ==> HasPrev(ov.transactions, spentBy[o], o);
    }
  }

  lemma {:induction false} MarkedIn(outputs: seq<OutputView>, prevs: set<OutPoint>, txid: Hash, v: OutputView)
    ensures v in MarkedAll(outputs, prevs, txid) <==> exists w :: w in outputs && v == Marked(w, prevs, txid)
  {
    var marked := MarkedAll(outputs, prevs, txid);
    if v in marked {
      var i :| 0 <= i < |marked| && marked[i] == v;
      assert outputs[i] in outputs;
    }
    if w :| w in outputs && v == Marked(w, prevs, txid) {
      var i :| 0 <= i < |outputs| && outputs[i] == w;
      assert marked[i] == v;
    }
  }

  lemma {:induction false} AddedOutputs(ov: OverlayView, prevs: set<OutPoint>, t: TxView, txid: Hash)
    requires ExactOutputs(ov.transactions, ov.outputs) && txid !in ov.transactions
    requires forall v {:trigger v in t.outputs} :: v in t.outputs ==> v.out.txid == txid
    requires forall v, w {:trigger v in t.outputs, w in t.outputs} :: v in t.outputs && w in t.outputs && v.out == w.out ==> v == w
    ensures ExactOutputs(Kept(ov, prevs, txid)[txid := t],
                         PutOutputs(KeptOutputs(ov, prevs, txid), t.outputs))
  {
    var txs := Kept(ov, prevs, txid)[txid := t];
    var kept := KeptOutputs(ov, prevs, txid);
    var outputs := PutOutputs(kept, t.outputs);
    forall id, v | HasOutput(txs, id, v) ensures v.out.txid == id && v.out in outputs && outputs[v.out] == v {
      PutOutputsAt(kept, t.outputs, v.out);
      if id == txid {
        assert v.out in OutsOf(t.outputs);
      } else {
        MarkedIn(ov.transactions[id].outputs, prevs, txid, v);
        var w :| w in ov.transactions[id].outputs && v == Marked(w, prevs, txid);
        assert HasOutput(ov.transactions, id, w);
      }
    }
    forall o | o in outputs ensures HasOutput(txs, o.txid, outputs[o]) && outputs[o].out == o {
      PutOutputsAt(kept, t.outputs, o);
      if o !in OutsOf(t.outputs) {
        assert HasOutput(ov.transactions, o.txid, ov.outputs[o]);
        MarkedIn(ov.transactions[o.txid].outputs, prevs, txid, outputs[o]);
      }
    }
  }

  // ----- the spent flag, and when it stops agreeing with the spend index

  /** Every listed output's flag names its spender in the overlay, or no one. */
  ghost predicate FlagsExact(ov: OverlayView) {
    forall o {:trigger o in ov.outputs} :: o in ov.outputs ==>
      ov.outputs[o].spentBy == if o in ov.spentBy then Some(ov.spentBy[o]) else None
  }

  /** Adding keeps the flags exact unless a held child is waiting for one of the new outputs. */
  lemma {:induction false} AddedFlags(ov: OverlayView, rows: Rows, tx: Tx)
    requires Exact(ov) && FlagsExact(ov) && tx.txid !in ov.transactions && NoneSpent(ov.spentBy, tx.ins)
    ensures FlagsExact(Added(ov, rows, tx)) <==>
            forall o :: o in OutsOf(NewOutputs(tx.txid, tx.outs)) ==> o !in ov.spentBy && !HasInput(tx.ins, o)
  {
    var t := NewTx(ov, rows, tx);
    var prevs := Prevs(t.inputs) * ov.outputs.Keys;
    var kept := KeptOutputs(ov, prevs, tx.txid);
    var after := Added(ov, rows, tx);
    forall o | o in after.outputs
      ensures (after.outputs[o].spentBy == if o in after.spentBy then Some(after.spentBy[o]) else None) <==>
              (o in OutsOf(t.outputs) ==> o !in ov.spentBy && o !in Prevs(t.inputs))
    {
      PutOutputsAt(kept, t.outputs, o);
      if o in OutsOf(t.outputs) {
        NewOutputsExact(tx.txid, tx.outs, after.outputs[o]);
      }
    }
    forall o | o in OutsOf(t.outputs)
      ensures o in after.outputs && (o in Prevs(t.inputs) <==> HasInput(tx.ins, o))
    {
      PutOutputsAt(kept, t.outputs, o);
      InputsExact(ov.outputs, rows, tx.ins, o);
    }
  }

  /** Removing keeps the flags exact unless the transaction spends an output of a transaction that stays. */
  lemma {:induction false} RemovedFlags(ov: OverlayView, txid: Hash)
    requires Exact(ov) && FlagsExact(ov) && txid in ov.transactions
    ensures FlagsExact(Removed(ov, txid)) <==>
            forall o :: o in Prevs(ov.transactions[txid].inputs) && o in ov.outputs ==> o.txid == txid
  {
    var t, after := ov.transactions[txid], Removed(ov, txid);
    forall o | o in ov.outputs ensures o in OutsOf(t.outputs) <==> o.txid == txid {
      assert HasOutput(ov.transactions, o.txid, ov.outputs[o]);
      if o in OutsOf(t.outputs) {
        var v :| v in t.outputs && v.out == o;
        assert HasOutput(ov.transactions, txid, v);
      }
    }
    forall o | o in after.outputs
      ensures (after.outputs[o].spentBy == if o in after.spentBy then Some(after.spentBy[o]) else None) <==>
              o !in Prevs(t.inputs)
    {
      assert o in Prevs(t.inputs) ==> HasPrev(ov.transactions, txid, o);
    }
  }
}
