/** Confirmed rows and mempool overlay merged into an unspent list and a balance. */
module Balance {
  import opened Types
  import opened Store
  import opened Overlay
  import opened Replay
  import opened Sums

  // ----- one scripthash's outputs, as maps from outpoint to value

  function OutsFor(rows: Rows, sh: Hash): set<OutPoint> {
    set k | k in rows.utxos && k.scripthash == sh :: k.out
  }

  /** An output to sh that is confirmed, with its value. */
  function Confirmed(rows: Rows, sh: Hash): map<OutPoint, int> {
    map o | o in OutsFor(rows, sh) :: rows.utxos[UtxoKey(sh, o)].value
  }

  /** An output to sh that the overlay lists, with its value. */
  function ListedWorth(ov: OverlayView, sh: Hash): map<OutPoint, int> {
    map o | o in ov.outputs && ov.outputs[o].scripthash == sh :: ov.outputs[o].value
  }

  function Where(m: map<OutPoint, int>, keep: set<OutPoint>): map<OutPoint, int> {
    map o | o in m && o in keep :: m[o]
  }

  function Except(m: map<OutPoint, int>, drop: set<OutPoint>): map<OutPoint, int> {
    map o | o in m && o !in drop :: m[o]
  }

  /** Listed outputs whose flag names a spender. */
  function FlaggedOuts(ov: OverlayView): set<OutPoint> {
    set o | o in ov.outputs && ov.outputs[o].spentBy.Some?
  }

  // ----- the mempool balance, transaction by transaction

  function UnspentOutputs(outputs: seq<OutputView>, sh: Hash): int {
    if outputs == [] then 0 else
    var o := outputs[|outputs| - 1];
    UnspentOutputs(outputs[..|outputs| - 1], sh) + if o.scripthash == sh && o.spentBy == None then o.value else 0
  }

  function SpentInputs(inputs: seq<MempoolInput>, sh: Hash): int {
    if inputs == [] then 0 else
    var i := inputs[|inputs| - 1];
    SpentInputs(inputs[..|inputs| - 1], sh) + if i.scripthash == Some(sh) then i.value else 0
  }

  function TxBalance(t: TxView, sh: Hash): int {
    UnspentOutputs(t.outputs, sh) - SpentInputs(t.inputs, sh)
  }

  function Filed(ov: OverlayView, sh: Hash): set<Hash> {
    if sh in ov.byScripthash then ov.byScripthash[sh] else {}
  }

  /** The balance that GetBalance adds up over the transactions filed under sh. */
  ghost function MempoolBalance(ov: OverlayView, sh: Hash): int {
    Sum(map t | t in Filed(ov, sh) && t in ov.transactions :: TxBalance(ov.transactions[t], sh))
  }

  // ----- overlay and rows that fit together

  /** What each held transaction recorded is what resolving its inputs now would find. */
  ghost predicate Current(rows: Rows, ov: OverlayView, t: Hash)
    requires t in ov.transactions
  {
    var tx := ov.transactions[t];
    && tx.scripthashes == InputScripthashes(tx.inputs) + OutputScripthashes(tx.outputs)
    && (forall i, j :: 0 <= i < j < |tx.inputs| ==> tx.inputs[i].prev != tx.inputs[j].prev)
    && (forall i, j :: 0 <= i < j < |tx.outputs| ==> tx.outputs[i].out != tx.outputs[j].out)
    && (forall i :: 0 <= i < |tx.inputs| ==>
          var now := Resolve(ov.outputs, rows, tx.inputs[i].prev);
          tx.inputs[i].scripthash == now.scripthash && tx.inputs[i].value == now.value)
  }

  ghost predicate Consistent(rows: Rows, ov: OverlayView) {
    && Exact(ov) && FlagsExact(ov) && Agreement(rows)
    && (forall t {:trigger Current(rows, ov, t)} :: t in ov.transactions ==> Current(rows, ov, t))
  }

  /** No held transaction's output is confirmed. */
  ghost predicate Disjoint(rows: Rows, ov: OverlayView) {
    forall o {:trigger o in ov.outputs} :: o in ov.outputs ==> o !in rows.outpoints
  }

  // ----- re-indexing the sums by outpoint

  /** Unspent mempool outputs to sh made by these transactions. */
  function UnspentBy(ov: OverlayView, sh: Hash, ids: set<Hash>): map<OutPoint, int> {
    map o | o in ov.outputs && o.txid in ids && ov.outputs[o].scripthash == sh && ov.outputs[o].spentBy == None ::
      ov.outputs[o].value
  }

  /** Outputs to sh, confirmed or listed, spent by these transactions. */
  function SpentOutputs(rows: Rows, ov: OverlayView, sh: Hash): map<OutPoint, int> {
    Where(Confirmed(rows, sh), ov.spentBy.Keys) + Where(ListedWorth(ov, sh), ov.spentBy.Keys)
  }

  function SpentIn(rows: Rows, ov: OverlayView, sh: Hash, ids: set<Hash>): map<OutPoint, int> {
    map o | o in SpentOutputs(rows, ov, sh) && ov.spentBy[o] in ids :: SpentOutputs(rows, ov, sh)[o]
  }

  function UnspentMap(outputs: seq<OutputView>, sh: Hash): map<OutPoint, int> {
    if outputs == [] then map[] else
    var o := outputs[|outputs| - 1];
    var m := UnspentMap(outputs[..|outputs| - 1], sh);
    if o.scripthash == sh && o.spentBy == None then m[o.out := o.value] else m
  }

  ghost predicate DistinctOuts(outputs: seq<OutputView>) {
    forall i, j :: 0 <= i < j < |outputs| ==> outputs[i].out != outputs[j].out
  }

  lemma {:induction false} UnspentMapAt(outputs: seq<OutputView>, sh: Hash, o: OutPoint)
    requires DistinctOuts(outputs)
    ensures o in UnspentMap(outputs, sh) <==>
            exists v {:trigger v in outputs} :: v in outputs && v.out == o && v.scripthash == sh && v.spentBy == None
    ensures forall v {:trigger v in outputs} :: v in outputs && v.out == o && v.scripthash == sh && v.spentBy == None ==>
              o in UnspentMap(outputs, sh) && UnspentMap(outputs, sh)[o] == v.value
  {
    if outputs != [] {
      var n := |outputs| - 1;
      UnspentMapAt(outputs[..n], sh, o);
      assert forall v :: v in outputs <==> v in outputs[..n] || v == outputs[n];
      assert forall v :: v in outputs[..n] ==> v.out != outputs[n].out;
    }
  }

  lemma {:induction false} UnspentMapSum(outputs: seq<OutputView>, sh: Hash)
    requires DistinctOuts(outputs)
    ensures Sum(UnspentMap(outputs, sh)) == UnspentOutputs(outputs, sh)
  {
    if outputs != [] {
      var n := |outputs| - 1;
      UnspentMapSum(outputs[..n], sh);
      UnspentMapAt(outputs[..n], sh, outputs[n].out);
      if outputs[n].scripthash == sh && outputs[n].spentBy == None {
        SumPut(UnspentMap(outputs[..n], sh), outputs[n].out, outputs[n].value);
      }
    }
  }

  lemma {:induction false} TxUnspentSum(rows: Rows, ov: OverlayView, sh: Hash, t: Hash)
    requires Exact(ov) && t in ov.transactions && Current(rows, ov, t)
    ensures Sum(UnspentBy(ov, sh, {t})) == UnspentOutputs(ov.transactions[t].outputs, sh)
  {
    var outputs := ov.transactions[t].outputs;
    UnspentMapSum(outputs, sh);
    forall o ensures o in UnspentMap(outputs, sh) <==> o in UnspentBy(ov, sh, {t})
             ensures o in UnspentMap(outputs, sh) ==> UnspentMap(outputs, sh)[o] == UnspentBy(ov, sh, {t})[o]
    {
      UnspentMapAt(outputs, sh, o);
      if o in UnspentMap(outputs, sh) {
        var v :| v in outputs && v.out == o && v.scripthash == sh && v.spentBy == None;
        assert HasOutput(ov.transactions, t, v);
      }
      if o in UnspentBy(ov, sh, {t}) {
        assert HasOutput(ov.transactions, t, ov.outputs[o]);
      }
    }
    assert UnspentMap(outputs, sh) == UnspentBy(ov, sh, {t});
  }

  function InputMap(inputs: seq<MempoolInput>, sh: Hash): map<OutPoint, int> {
    if inputs == [] then map[] else
    var i := inputs[|inputs| - 1];
    var m := InputMap(inputs[..|inputs| - 1], sh);
    if i.scripthash == Some(sh) then m[i.prev := i.value] else m
  }

  ghost predicate DistinctPrevs(inputs: seq<MempoolInput>) {
    forall i, j :: 0 <= i < j < |inputs| ==> inputs[i].prev != inputs[j].prev
  }

  lemma {:induction false} InputMapAt(inputs: seq<MempoolInput>, sh: Hash, o: OutPoint)
    requires DistinctPrevs(inputs)
    ensures o in InputMap(inputs, sh) <==> exists i {:trigger i in inputs} :: i in inputs && i.prev == o && i.scripthash == Some(sh)
    ensures forall i {:trigger i in inputs} :: i in inputs && i.prev == o && i.scripthash == Some(sh) ==>
              o in InputMap(inputs, sh) && InputMap(inputs, sh)[o] == i.value
  {
    if inputs != [] {
      var n := |inputs| - 1;
      InputMapAt(inputs[..n], sh, o);
      assert forall i :: i in inputs <==> i in inputs[..n] || i == inputs[n];
      assert forall i :: i in inputs[..n] ==> i.prev != inputs[n].prev;
    }
  }

  lemma {:induction false} InputMapSum(inputs: seq<MempoolInput>, sh: Hash)
    requires DistinctPrevs(inputs)
    ensures Sum(InputMap(inputs, sh)) == SpentInputs(inputs, sh)
  {
    if inputs != [] {
      var n := |inputs| - 1;
      InputMapSum(inputs[..n], sh);
      InputMapAt(inputs[..n], sh, inputs[n].prev);
      if inputs[n].scripthash == Some(sh) {
        SumPut(InputMap(inputs[..n], sh), inputs[n].prev, inputs[n].value);
      }
    }
  }

  /** An outpoint resolves to sh exactly when it is an output to sh, and then to its value. */
  lemma {:induction false} ResolvesTo(rows: Rows, ov: OverlayView, sh: Hash, o: OutPoint)
    requires Agreement(rows) && Disjoint(rows, ov)
    ensures Resolve(ov.outputs, rows, o).scripthash == Some(sh) <==> o in Confirmed(rows, sh) || o in ListedWorth(ov, sh)
    ensures o in ListedWorth(ov, sh) ==> o !in Confirmed(rows, sh) && Resolve(ov.outputs, rows, o).value == ListedWorth(ov, sh)[o]
    ensures o in Confirmed(rows, sh) ==> Resolve(ov.outputs, rows, o).value == Confirmed(rows, sh)[o]
  {
    assert o in OutsFor(rows, sh) <==> UtxoKey(sh, o) in rows.utxos by {
      if UtxoKey(sh, o) in rows.utxos {
        assert UtxoKey(sh, o).out == o;
      }
    }
    assert UtxoKey(sh, o) in rows.utxos <==> o in rows.outpoints && rows.outpoints[o] == sh;
  }

  lemma {:induction false} TxSpentSum(rows: Rows, ov: OverlayView, sh: Hash, t: Hash)
    requires Exact(ov) && Agreement(rows) && Disjoint(rows, ov) && t in ov.transactions && Current(rows, ov, t)
    ensures Sum(SpentIn(rows, ov, sh, {t})) == SpentInputs(ov.transactions[t].inputs, sh)
  {
    InputMapSum(ov.transactions[t].inputs, sh);
    InputsAreSpent(rows, ov, sh, t);
  }

  lemma {:induction false} InputsAreSpent(rows: Rows, ov: OverlayView, sh: Hash, t: Hash)
    requires Exact(ov) && Agreement(rows) && Disjoint(rows, ov) && t in ov.transactions && Current(rows, ov, t)
    ensures InputMap(ov.transactions[t].inputs, sh) == SpentIn(rows, ov, sh, {t})
  {
    var a, b := InputMap(ov.transactions[t].inputs, sh), SpentIn(rows, ov, sh, {t});
    forall o ensures AgreeAt(a, b, o) {
      SpentInAt(rows, ov, sh, t, o);
    }
    SameMaps(a, b);
  }

  ghost predicate AgreeAt(a: map<OutPoint, int>, b: map<OutPoint, int>, o: OutPoint) {
    (o in a <==> o in b) && (o in a ==> a[o] == b[o])
  }

  lemma {:induction false} SameMaps(a: map<OutPoint, int>, b: map<OutPoint, int>)
    requires forall o {:trigger AgreeAt(a, b, o)} :: AgreeAt(a, b, o)
    ensures a == b
  {
    forall o ensures (o in a <==> o in b) && (o in a ==> a[o] == b[o]) {
      assert AgreeAt(a, b, o);
    }
  }

  lemma {:induction false} SpentInAt(rows: Rows, ov: OverlayView, sh: Hash, t: Hash, o: OutPoint)
    requires Exact(ov) && Agreement(rows) && Disjoint(rows, ov) && t in ov.transactions && Current(rows, ov, t)
    ensures AgreeAt(InputMap(ov.transactions[t].inputs, sh), SpentIn(rows, ov, sh, {t}), o)
  {
    InputResolved(rows, ov, sh, t, o);
    SpentInMeans(rows, ov, sh, t, o);
    ResolvesTo(rows, ov, sh, o);
  }

  /** Input o of a held transaction counts for sh exactly if o resolves to sh, and with the value it resolves to. */
  lemma {:induction false} InputResolved(rows: Rows, ov: OverlayView, sh: Hash, t: Hash, o: OutPoint)
    requires t in ov.transactions && Current(rows, ov, t)
    ensures var m, now := InputMap(ov.transactions[t].inputs, sh), Resolve(ov.outputs, rows, o);
            && (o in m <==> HasPrev(ov.transactions, t, o) && now.scripthash == Some(sh))
            && (o in m ==> m[o] == now.value)
  {
    var inputs := ov.transactions[t].inputs;
    InputMapAt(inputs, sh, o);
    if o in Prevs(inputs) {
      var i :| i in inputs && i.prev == o;
    }
  }

  lemma {:induction false} SpentInMeans(rows: Rows, ov: OverlayView, sh: Hash, t: Hash, o: OutPoint)
    requires Exact(ov) && t in ov.transactions
    ensures o in SpentIn(rows, ov, sh, {t}) <==>
            HasPrev(ov.transactions, t, o) && (o in Confirmed(rows, sh) || o in ListedWorth(ov, sh))
    ensures o in SpentIn(rows, ov, sh, {t}) ==>
            SpentIn(rows, ov, sh, {t})[o] == if o in ListedWorth(ov, sh) then ListedWorth(ov, sh)[o] else Confirmed(rows, sh)[o]
  {
    if o in ov.spentBy {
      assert HasPrev(ov.transactions, ov.spentBy[o], o);
    }
  }

  // ----- adding up over the filed transactions

  ghost function BalanceOf(ov: OverlayView, sh: Hash, ids: set<Hash>): int {
    Sum(map t | t in ids && t in ov.transactions :: TxBalance(ov.transactions[t], sh))
  }

  lemma {:induction false} BalanceByOutpoint(rows: Rows, ov: OverlayView, sh: Hash, ids: set<Hash>)
    requires Consistent(rows, ov) && Disjoint(rows, ov) && ids <= ov.transactions.Keys
    ensures BalanceOf(ov, sh, ids) == Sum(UnspentBy(ov, sh, ids)) - Sum(SpentIn(rows, ov, sh, ids))
  {
    if ids == {} {
      assert UnspentBy(ov, sh, ids) == map[] && SpentIn(rows, ov, sh, ids) == map[];
    } else {
      var t :| t in ids;
      var rest := ids - {t};
      BalanceByOutpoint(rows, ov, sh, rest);
      assert Current(rows, ov, t);
      TxUnspentSum(rows, ov, sh, t);
      TxSpentSum(rows, ov, sh, t);
      BalanceStep(rows, ov, sh, rest, t);
      assert rest + {t} == ids;
    }
  }

  lemma {:induction false} BalanceStep(rows: Rows, ov: OverlayView, sh: Hash, rest: set<Hash>, t: Hash)
    requires t in ov.transactions && t !in rest
    ensures BalanceOf(ov, sh, rest + {t}) == BalanceOf(ov, sh, rest) + TxBalance(ov.transactions[t], sh)
    ensures Sum(UnspentBy(ov, sh, rest + {t})) == Sum(UnspentBy(ov, sh, rest)) + Sum(UnspentBy(ov, sh, {t}))
    ensures Sum(SpentIn(rows, ov, sh, rest + {t})) == Sum(SpentIn(rows, ov, sh, rest)) + Sum(SpentIn(rows, ov, sh, {t}))
  {
    BalanceOfStep(ov, sh, rest, t);
    SumUnion(UnspentBy(ov, sh, rest), UnspentBy(ov, sh, {t}));
    UnspentByStep(ov, sh, rest, t);
    SumUnion(SpentIn(rows, ov, sh, rest), SpentIn(rows, ov, sh, {t}));
    SpentInStep(rows, ov, sh, rest, t);
  }

  lemma {:induction false} BalanceOfStep(ov: OverlayView, sh: Hash, rest: set<Hash>, t: Hash)
    requires t in ov.transactions && t !in rest
    ensures BalanceOf(ov, sh, rest + {t}) == BalanceOf(ov, sh, rest) + TxBalance(ov.transactions[t], sh)
  {
    var m := map x | x in rest && x in ov.transactions :: TxBalance(ov.transactions[x], sh);
    SumPut(m, t, TxBalance(ov.transactions[t], sh));
    assert (map x | x in rest + {t} && x in ov.transactions :: TxBalance(ov.transactions[x], sh))
        == m[t := TxBalance(ov.transactions[t], sh)];
  }

  lemma {:induction false} UnspentByStep(ov: OverlayView, sh: Hash, rest: set<Hash>, t: Hash)
    ensures UnspentBy(ov, sh, rest) + UnspentBy(ov, sh, {t}) == UnspentBy(ov, sh, rest + {t})
  {
  }

  lemma {:induction false} SpentInStep(rows: Rows, ov: OverlayView, sh: Hash, rest: set<Hash>, t: Hash)
    ensures SpentIn(rows, ov, sh, rest) + SpentIn(rows, ov, sh, {t}) == SpentIn(rows, ov, sh, rest + {t})
  {
  }

  /** Every output to sh, made or spent in the mempool, belongs to a transaction filed under sh. */
  lemma {:induction false} FiledAreAll(rows: Rows, ov: OverlayView, sh: Hash)
    requires Consistent(rows, ov) && Disjoint(rows, ov)
    ensures Filed(ov, sh) <= ov.transactions.Keys
    ensures UnspentBy(ov, sh, Filed(ov, sh)) == Spendable(ov, sh)
    ensures SpentIn(rows, ov, sh, Filed(ov, sh)) == SpentOutputs(rows, ov, sh)
  {
    FiledHeld(ov, sh);
    FiledMakes(rows, ov, sh);
    FiledSpends(rows, ov, sh);
  }

  lemma {:induction false} FiledHeld(ov: OverlayView, sh: Hash)
    requires Exact(ov)
    ensures Filed(ov, sh) <= ov.transactions.Keys
  {
    forall t | t in Filed(ov, sh) ensures t in ov.transactions {
      assert Lists(ov.byScripthash, sh, t);
    }
  }

  lemma {:induction false} FiledMakes(rows: Rows, ov: OverlayView, sh: Hash)
    requires Consistent(rows, ov)
    ensures UnspentBy(ov, sh, Filed(ov, sh)) == Spendable(ov, sh)
  {
    forall o | o in ListedWorth(ov, sh) ensures o.txid in Filed(ov, sh) {
      MakerFiled(rows, ov, sh, o);
    }
    AllMade(ov, sh, Filed(ov, sh));
  }

  lemma {:induction false} FiledSpends(rows: Rows, ov: OverlayView, sh: Hash)
    requires Consistent(rows, ov) && Disjoint(rows, ov)
    ensures SpentIn(rows, ov, sh, Filed(ov, sh)) == SpentOutputs(rows, ov, sh)
  {
    forall o | o in SpentOutputs(rows, ov, sh) ensures ov.spentBy[o] in Filed(ov, sh) {
      SpenderFiled(rows, ov, sh, o);
    }
    AllSpent(rows, ov, sh, Filed(ov, sh));
  }

  lemma {:induction false} AllMade(ov: OverlayView, sh: Hash, ids: set<Hash>)
    requires forall o {:trigger o in ListedWorth(ov, sh)} :: o in ListedWorth(ov, sh) ==> o.txid in ids
    ensures UnspentBy(ov, sh, ids) == Spendable(ov, sh)
  {
    forall o | o in ov.outputs && ov.outputs[o].scripthash == sh ensures o.txid in ids {
      assert o in ListedWorth(ov, sh);
    }
  }

  lemma {:induction false} AllSpent(rows: Rows, ov: OverlayView, sh: Hash, ids: set<Hash>)
    requires forall o {:trigger o in SpentOutputs(rows, ov, sh)} :: o in SpentOutputs(rows, ov, sh) ==> ov.spentBy[o] in ids
    ensures SpentIn(rows, ov, sh, ids) == SpentOutputs(rows, ov, sh)
  {
  }

  lemma {:induction false} MakerFiled(rows: Rows, ov: OverlayView, sh: Hash, o: OutPoint)
    requires Consistent(rows, ov) && o in ListedWorth(ov, sh)
    ensures o.txid in Filed(ov, sh)
  {
    assert HasOutput(ov.transactions, o.txid, ov.outputs[o]);
    assert Current(rows, ov, o.txid);
    assert ov.outputs[o] in ov.transactions[o.txid].outputs;
    assert Touches(ov.transactions, o.txid, sh);
  }

  lemma {:induction false} SpenderFiled(rows: Rows, ov: OverlayView, sh: Hash, o: OutPoint)
    requires Consistent(rows, ov) && Disjoint(rows, ov) && o in SpentOutputs(rows, ov, sh)
    ensures ov.spentBy[o] in Filed(ov, sh)
  {
    var t := ov.spentBy[o];
    assert HasPrev(ov.transactions, t, o);
    assert Current(rows, ov, t);
    ResolvesTo(rows, ov, sh, o);
    var i :| i in ov.transactions[t].inputs && i.prev == o;
    assert sh in InputScripthashes(ov.transactions[t].inputs);
    assert Touches(ov.transactions, t, sh);
  }

  /** What GetBalance returns: unspent mempool outputs, less everything of sh that the mempool spends. */
  lemma {:induction false} MempoolBalanceMeaning(rows: Rows, ov: OverlayView, sh: Hash)
    requires Consistent(rows, ov) && Disjoint(rows, ov)
    ensures MempoolBalance(ov, sh) ==
            Sum(Spendable(ov, sh))
            - Sum(Where(Confirmed(rows, sh), ov.spentBy.Keys)) - Sum(Where(ListedWorth(ov, sh), ov.spentBy.Keys))
  {
    FiledAreAll(rows, ov, sh);
    BalanceByOutpoint(rows, ov, sh, Filed(ov, sh));
    assert MempoolBalance(ov, sh) == BalanceOf(ov, sh, Filed(ov, sh));
    var c, l := Where(Confirmed(rows, sh), ov.spentBy.Keys), Where(ListedWorth(ov, sh), ov.spentBy.Keys);
    forall o | o in l ensures o !in c {
      ResolvesTo(rows, ov, sh, o);
    }
    SumUnion(c, l);
  }

  // ----- the reported balance against the unspent list

  /** The part reported as confirmed: rows that no held transaction spends. */
  ghost function ConfirmedPart(rows: Rows, ov: OverlayView, sh: Hash): int {
    Sum(Except(Confirmed(rows, sh), ov.spentBy.Keys))
  }

  /** The part reported as unconfirmed: spent rows are subtracted here, and again inside the mempool balance. */
  ghost function UnconfirmedPart(rows: Rows, ov: OverlayView, sh: Hash): int {
    MempoolBalance(ov, sh) - Sum(Where(Confirmed(rows, sh), ov.spentBy.Keys))
  }

  ghost function UnspentTotal(rows: Rows, ov: OverlayView, sh: Hash): int {
    Sum(Except(Confirmed(rows, sh), ov.spentBy.Keys)) + Sum(Spendable(ov, sh))
  }

  /** The balance falls short of the unspent list by twice the confirmed and once the mempool value spent in the mempool. */
  lemma {:induction false} BalanceShortfall(rows: Rows, ov: OverlayView, sh: Hash)
    requires Consistent(rows, ov) && Disjoint(rows, ov)
    ensures ConfirmedPart(rows, ov, sh) + UnconfirmedPart(rows, ov, sh) ==
            UnspentTotal(rows, ov, sh)
            - 2 * Sum(Where(Confirmed(rows, sh), ov.spentBy.Keys)) - Sum(Where(ListedWorth(ov, sh), ov.spentBy.Keys))
  {
    MempoolBalanceMeaning(rows, ov, sh);
  }

  /** The two totals agree exactly when the mempool spends nothing of sh. */
  lemma {:induction false} BalanceAgreesWhenNothingSpent(rows: Rows, ov: OverlayView, sh: Hash)
    requires Consistent(rows, ov) && Disjoint(rows, ov)
    requires forall o :: o in Confirmed(rows, sh) ==> Confirmed(rows, sh)[o] > 0
    requires forall o :: o in ListedWorth(ov, sh) ==> ListedWorth(ov, sh)[o] > 0
    ensures ConfirmedPart(rows, ov, sh) + UnconfirmedPart(rows, ov, sh) == UnspentTotal(rows, ov, sh) <==>
            forall o :: o in ov.spentBy ==> o !in Confirmed(rows, sh) && o !in ListedWorth(ov, sh)
  {
    BalanceShortfall(rows, ov, sh);
    var c, l := Where(Confirmed(rows, sh), ov.spentBy.Keys), Where(ListedWorth(ov, sh), ov.spentBy.Keys);
    SumPositive(c);
    SumPositive(l);
    assert c == map[] <==> forall o :: o in ov.spentBy ==> o !in Confirmed(rows, sh) by {
      assert forall o :: o in c <==> o in Confirmed(rows, sh) && o in ov.spentBy;
    }
    assert l == map[] <==> forall o :: o in ov.spentBy ==> o !in ListedWorth(ov, sh) by {
      assert forall o :: o in l <==> o in ListedWorth(ov, sh) && o in ov.spentBy;
    }
  }

  // ----- steps of the loops that add these sums up

  /** A transaction filed under sh that is not held adds nothing. */
  lemma {:induction false} BalanceOfMissing(ov: OverlayView, sh: Hash, rest: set<Hash>, t: Hash)
    requires t !in ov.transactions
    ensures BalanceOf(ov, sh, rest + {t}) == BalanceOf(ov, sh, rest)
  {
    assert (map x | x in rest + {t} && x in ov.transactions :: TxBalance(ov.transactions[x], sh))
        == (map x | x in rest && x in ov.transactions :: TxBalance(ov.transactions[x], sh));
  }

  lemma {:induction false} PartStep(m: map<OutPoint, int>, done: set<OutPoint>, o: OutPoint, spent: set<OutPoint>)
    requires o in m && o !in done
    ensures Sum(Except(Where(m, done + {o}), spent)) == Sum(Except(Where(m, done), spent)) + if o in spent then 0 else m[o]
    ensures Sum(Where(Where(m, done + {o}), spent)) == Sum(Where(Where(m, done), spent)) + if o in spent then m[o] else 0
  {
    var was, now := Where(m, done), Where(m, done + {o});
    if o in spent {
      assert Except(now, spent) == Except(was, spent);
      assert Where(now, spent) == Where(was, spent)[o := m[o]];
      SumPut(Where(was, spent), o, m[o]);
    } else {
      assert Where(now, spent) == Where(was, spent);
      assert Except(now, spent) == Except(was, spent)[o := m[o]];
      SumPut(Except(was, spent), o, m[o]);
    }
  }

  // ----- the unspent list

  datatype Utxo = Utxo(out: OutPoint, height: int, value: int)

  /** A list of outputs without repetition, whose values these are. */
  ghost predicate Spells(list: seq<Utxo>, m: map<OutPoint, int>) {
    && (forall i :: 0 <= i < |list| ==> list[i].out in m && m[list[i].out] == list[i].value)
    && (forall i, j :: 0 <= i < j < |list| ==> list[i].out != list[j].out)
    && |list| == |m|
  }

  lemma {:induction false} SpellsPlus(list: seq<Utxo>, m: map<OutPoint, int>, u: Utxo)
    requires Spells(list, m) && u.out !in m
    ensures Spells(list + [u], m[u.out := u.value])
  {
    assert m[u.out := u.value].Keys == m.Keys + {u.out};
  }

  function OutsIn(list: seq<Utxo>): set<OutPoint> {
    set u | u in list :: u.out
  }

  lemma {:induction false} OutsCount(list: seq<Utxo>)
    requires forall i, j :: 0 <= i < j < |list| ==> list[i].out != list[j].out
    ensures |OutsIn(list)| == |list|
  {
    if list != [] {
      var init, last := list[..|list| - 1], list[|list| - 1];
      OutsCount(init);
      assert forall u :: u in list <==> u in init || u == last;
      assert OutsIn(list) == OutsIn(init) + {last.out};
      assert last.out !in OutsIn(init) by {
        forall u | u in init ensures u.out != last.out {
          var i :| 0 <= i < |init| && init[i] == u;
        }
      }
    }
  }

  lemma {:induction false} SubsetFills<T>(a: set<T>, b: set<T>)
    requires a <= b && |a| == |b|
    ensures a == b
  {
    assert |b - a| == |b| - |a|;
    assert b - a == {};
    assert forall x :: x in b ==> x in a || x in b - a;
  }

  /** So every output of the map is on the list. */
  lemma {:induction false} SpellsCovers(list: seq<Utxo>, m: map<OutPoint, int>)
    requires Spells(list, m)
    ensures OutsIn(list) == m.Keys
  {
    OutsCount(list);
    forall u | u in list ensures u.out in m {
      var i :| 0 <= i < |list| && list[i] == u;
    }
    SubsetFills(OutsIn(list), m.Keys);
  }

  /** Mempool entries are reported at height 0. */
  ghost predicate Pending(list: seq<Utxo>) {
    forall i :: 0 <= i < |list| ==> list[i].height == 0
  }

  lemma {:induction false} PendingPlus(list: seq<Utxo>, u: Utxo)
    requires Pending(list) && u.height == 0
    ensures Pending(list + [u])
  {
  }

  /** Outputs that the overlay lists for sh and does not flag. */
  function Spendable(ov: OverlayView, sh: Hash): map<OutPoint, int> {
    Except(ListedWorth(ov, sh), FlaggedOuts(ov))
  }

  lemma {:induction false} SpendableAt(ov: OverlayView, sh: Hash, o: OutPoint)
    requires o in ov.outputs
    ensures o in Spendable(ov, sh) <==> ov.outputs[o].scripthash == sh && ov.outputs[o].spentBy == None
    ensures o in Spendable(ov, sh) ==> Spendable(ov, sh)[o] == ov.outputs[o].value
  {
  }

  lemma {:induction false} SpendableBounds(ov: OverlayView, sh: Hash)
    ensures Except(Spendable(ov, sh), ov.outputs.Keys) == map[]
    ensures Except(Spendable(ov, sh), {}) == Spendable(ov, sh)
  {
  }

  /** Taking o off the to-do set adds it to the map still to be spelled out, if it belongs there. */
  lemma {:induction false} SpellsStep(list: seq<Utxo>, all: map<OutPoint, int>, todo: set<OutPoint>, u: Utxo)
    requires Spells(list, Except(all, todo)) && u.out in todo
    ensures u.out !in all ==> Spells(list, Except(all, todo - {u.out}))
    ensures u.out in all && all[u.out] == u.value ==> Spells(list + [u], Except(all, todo - {u.out}))
  {
    var was, now := Except(all, todo), Except(all, todo - {u.out});
    if u.out !in all {
      assert now == was;
    } else if all[u.out] == u.value {
      assert now == was[u.out := u.value];
      SpellsPlus(list, was, u);
    }
  }

  function Total(list: seq<Utxo>): int {
    if list == [] then 0 else Total(list[..|list| - 1]) + list[|list| - 1].value
  }

  lemma {:induction false} SpellsTotal(list: seq<Utxo>, m: map<OutPoint, int>)
    requires Spells(list, m)
    ensures Total(list) == Sum(m)
  {
    if list == [] {
      assert m == map[];
    } else {
      var n := |list| - 1;
      var rest := m - {list[n].out};
      assert rest.Keys == m.Keys - {list[n].out};
      SumTake(m, list[n].out);
      SpellsTotal(list[..n], rest);
    }
  }

  /** A list that spells a map names each of its keys. */
  lemma {:induction false} SpellsAll(list: seq<Utxo>, m: map<OutPoint, int>, o: OutPoint)
    requires Spells(list, m) && o in m
    ensures exists i :: 0 <= i < |list| && list[i].out == o
  {
    assert |m| == |m.Keys| && m.Keys == {o} + (m.Keys - {o});
    var n := |list| - 1;
    var rest := m - {list[n].out};
    assert rest.Keys == m.Keys - {list[n].out};
    if list[n].out != o {
      SpellsAll(list[..n], rest, o);
      var i :| 0 <= i < n && list[..n][i].out == o;
      assert list[i].out == o;
    }
  }
}
