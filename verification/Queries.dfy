/** Balance and unspent list of a scripthash, over the confirmed rows and the overlay. */
module Queries {
  import opened Types
  import opened Store
  import opened Overlay
  import opened Balance
  import opened Mempool
  import opened Sums
  import Keys

  method GetScripthashBalance(mempool: MempoolOverlay, sh: Hash) returns (confirmed: int, unconfirmed: int)
    requires mempool.Valid()
    ensures confirmed == ConfirmedPart(mempool.store.db.rows, mempool.view, sh)
    ensures unconfirmed == UnconfirmedPart(mempool.store.db.rows, mempool.view, sh)
  {
    var rows := mempool.store.db.rows;
    var all := OutsFor(rows, sh);
    ghost var values, spent := Confirmed(rows, sh), mempool.view.spentBy.Keys;
    ghost var done: set<OutPoint> := {};
    var todo := all;
    confirmed, unconfirmed := 0, 0;
    while todo != {}
      invariant done <= all && forall o :: o in todo <==> o in all && o !in done
      invariant confirmed == Sum(Except(Where(values, done), spent))
      invariant unconfirmed == -Sum(Where(Where(values, done), spent))
      decreases todo
    {
      var o :| o in todo;
      PartStep(values, done, o, spent);
      var utxo := rows.utxos[UtxoKey(sh, o)];
      if mempool.IsOutputSpent(o) {
        unconfirmed := unconfirmed - utxo.value;
      } else {
        confirmed := confirmed + utxo.value;
      }
      todo, done := todo - {o}, done + {o};
    }
    assert Where(values, done) == values;
    var balance := mempool.GetBalance(sh);
    unconfirmed := unconfirmed + balance;
  }

  // ----- the order of an iterator over one scripthash's UTXO rows

  predicate OutBefore(a: OutPoint, b: OutPoint) {
    Keys.Less(a.txid.bytes, b.txid.bytes) || (a.txid == b.txid && a.vout < b.vout)
  }

  /** It is the order of the stored keys. */
  lemma {:induction false} OutBeforeIsByteOrder(sh: Hash, a: OutPoint, b: OutPoint)
    requires |sh.bytes| == HASH_LENGTH && |a.txid.bytes| == HASH_LENGTH && |b.txid.bytes| == HASH_LENGTH
    requires a.vout < U32 && b.vout < U32
    ensures OutBefore(a, b) <==> Keys.Less(Keys.MakeUTXOKey(sh.bytes, a.txid.bytes, a.vout).value,
                                           Keys.MakeUTXOKey(sh.bytes, b.txid.bytes, b.vout).value)
  {
    Keys.UTXOOrder(sh.bytes, a.txid.bytes, a.vout, b.txid.bytes, b.vout);
  }

  /** The rows of one scripthash are the keys in its prefix range. */
  lemma {:induction false} ScanSeesOuts(rows: Rows, sh: Hash, k: UtxoKey)
    requires k in rows.utxos && |sh.bytes| == 32 && |k.scripthash.bytes| == 32 && |k.out.txid.bytes| == 32 && k.out.vout < U32
    ensures var key := Keys.MakeUTXOKey(k.scripthash.bytes, k.out.txid.bytes, k.out.vout);
            && key.Some? && Keys.MakeUTXOPrefix(sh.bytes).Some?
            && (Keys.InRange(Keys.MakeUTXOPrefix(sh.bytes).value, key.value) <==> k == UtxoKey(sh, k.out))
            && (Keys.InRange(Keys.MakeUTXOPrefix(sh.bytes).value, key.value) ==> k.out in OutsFor(rows, sh))
  {
    Keys.UTXORange(sh.bytes, k.scripthash.bytes, k.out.txid.bytes, k.out.vout, 0, 0, 0);
    assert sh.bytes == k.scripthash.bytes ==> sh == k.scripthash;
  }

  lemma {:induction false} OutBeforeTotal(a: OutPoint, b: OutPoint)
    ensures a == b || OutBefore(a, b) || OutBefore(b, a)
  {
    Keys.LessTotal(a.txid.bytes, b.txid.bytes);
  }

  lemma {:induction false} OutBeforeTrans(a: OutPoint, b: OutPoint, c: OutPoint)
    requires OutBefore(a, b) && OutBefore(b, c)
    ensures OutBefore(a, c)
  {
    if a.txid != b.txid && b.txid != c.txid {
      Keys.LessTrans(a.txid.bytes, b.txid.bytes, c.txid.bytes);
    }
  }

  predicate IsFirstOut(o: OutPoint, outs: set<OutPoint>) {
    o in outs && forall x {:trigger x in outs} :: x in outs ==> x == o || OutBefore(o, x)
  }

  lemma {:induction false} FirstOutExists(outs: set<OutPoint>)
    requires outs != {}
    ensures exists o :: IsFirstOut(o, outs)
  {
    var x :| x in outs;
    var rest := outs - {x};
    if rest == {} {
      assert forall y :: y in outs ==> y == x || y in rest;
      assert IsFirstOut(x, outs);
    } else {
      FirstOutExists(rest);
      var o :| IsFirstOut(o, rest);
      OutBeforeTotal(x, o);
      var first := if OutBefore(x, o) then x else o;
      forall y | y in outs ensures y == first || OutBefore(first, y) {
        assert y == x || y in rest;
        if first == x && y != x && y != o {
          OutBeforeTrans(x, o, y);
        }
      }
      assert IsFirstOut(first, outs);
    }
  }

  ghost predicate InKeyOrder(list: seq<Utxo>) {
    forall i, j :: 0 <= i < j < |list| ==> OutBefore(list[i].out, list[j].out)
  }

  ghost predicate AllBefore(list: seq<Utxo>, outs: set<OutPoint>) {
    forall i, o {:trigger OutBefore(list[i].out, o)} :: 0 <= i < |list| && o in outs ==> OutBefore(list[i].out, o)
  }

  lemma {:induction false} OrderStep(list: seq<Utxo>, outs: set<OutPoint>, u: Utxo)
    requires InKeyOrder(list) && AllBefore(list, outs) && IsFirstOut(u.out, outs)
    ensures InKeyOrder(list + [u]) && AllBefore(list + [u], outs - {u.out}) && AllBefore(list, outs - {u.out})
  {
  }

  ghost predicate Heights(list: seq<Utxo>, rows: Rows, sh: Hash) {
    forall i :: 0 <= i < |list| ==>
      UtxoKey(sh, list[i].out) in rows.utxos && list[i].height == rows.utxos[UtxoKey(sh, list[i].out)].height
  }

  /** Entry by entry: the rows of sh that no held transaction spends, with their values. */
  ghost predicate ConfirmedList(list: seq<Utxo>, rows: Rows, ov: OverlayView, sh: Hash) {
    && (forall i :: 0 <= i < |list| ==>
          && UtxoKey(sh, list[i].out) in rows.utxos && list[i].out !in ov.spentBy
          && list[i].value == rows.utxos[UtxoKey(sh, list[i].out)].value)
    && (forall o {:trigger UtxoKey(sh, o)} :: UtxoKey(sh, o) in rows.utxos && o !in ov.spentBy ==>
          exists i :: 0 <= i < |list| && list[i].out == o)
  }

  /** Entry by entry: the listed outputs to sh that no flag marks as spent, with their values. */
  ghost predicate PendingList(list: seq<Utxo>, ov: OverlayView, sh: Hash) {
    && (forall i :: 0 <= i < |list| ==>
          && list[i].out in ov.outputs && ov.outputs[list[i].out].scripthash == sh && ov.outputs[list[i].out].spentBy == None
          && list[i].value == ov.outputs[list[i].out].value)
    && (forall o {:trigger o in ov.outputs} :: o in ov.outputs && ov.outputs[o].scripthash == sh && ov.outputs[o].spentBy == None ==>
          exists i :: 0 <= i < |list| && list[i].out == o)
  }

  lemma {:induction false} OnListAt(list: seq<Utxo>, m: map<OutPoint, int>, o: OutPoint)
    requires Spells(list, m) && o in m
    ensures exists i :: 0 <= i < |list| && list[i].out == o
  {
    SpellsCovers(list, m);
    assert o in OutsIn(list);
    var u :| u in list && u.out == o;
    var i :| 0 <= i < |list| && list[i] == u;
  }

  lemma {:induction false} ListMeans(confirmed: seq<Utxo>, pending: seq<Utxo>, rows: Rows, ov: OverlayView, sh: Hash)
    requires Spells(confirmed, Except(Confirmed(rows, sh), ov.spentBy.Keys)) && Spells(pending, Spendable(ov, sh))
    ensures ConfirmedList(confirmed, rows, ov, sh) && PendingList(pending, ov, sh)
  {
    forall o | UtxoKey(sh, o) in rows.utxos && o !in ov.spentBy ensures exists i :: 0 <= i < |confirmed| && confirmed[i].out == o {
      assert o in OutsFor(rows, sh);
      OnListAt(confirmed, Except(Confirmed(rows, sh), ov.spentBy.Keys), o);
    }
    forall o | o in ov.outputs && ov.outputs[o].scripthash == sh && ov.outputs[o].spentBy == None
      ensures exists i :: 0 <= i < |pending| && pending[i].out == o
    {
      OnListAt(pending, Spendable(ov, sh), o);
    }
  }

  /** Confirmed rows not spent in the mempool, in key order, then unspent mempool outputs at height 0. */
  method GetScripthashUnspent(mempool: MempoolOverlay, sh: Hash) returns (list: seq<Utxo>, n: nat)
    requires mempool.Valid()
    ensures n <= |list|
    ensures Spells(list[..n], Except(Confirmed(mempool.store.db.rows, sh), mempool.view.spentBy.Keys))
    ensures Heights(list[..n], mempool.store.db.rows, sh) && InKeyOrder(list[..n])
    ensures Spells(list[n..], Spendable(mempool.view, sh)) && Pending(list[n..])
    ensures ConfirmedList(list[..n], mempool.store.db.rows, mempool.view, sh) && PendingList(list[n..], mempool.view, sh)
  {
    var confirmed := ConfirmedUnspent(mempool, sh);
    var pending := mempool.GetUnspentOutputs(sh);
    n := |confirmed|;
    list := confirmed + pending;
    assert list[n..] == pending && list[..n] == confirmed;
    ListMeans(confirmed, pending, mempool.store.db.rows, mempool.view, sh);
  }

  method ConfirmedUnspent(mempool: MempoolOverlay, sh: Hash) returns (list: seq<Utxo>)
    requires mempool.Valid()
    ensures Spells(list, Except(Confirmed(mempool.store.db.rows, sh), mempool.view.spentBy.Keys))
    ensures Heights(list, mempool.store.db.rows, sh) && InKeyOrder(list)
  {
    var rows := mempool.store.db.rows;
    ghost var all := Except(Confirmed(rows, sh), mempool.view.spentBy.Keys);
    var todo := OutsFor(rows, sh);
    list := [];
    assert Except(all, todo) == map[];
    while todo != {}
      invariant todo <= OutsFor(rows, sh)
      invariant Spells(list, Except(all, todo))
      invariant Heights(list, rows, sh) && InKeyOrder(list) && AllBefore(list, todo)
      decreases todo
    {
      FirstOutExists(todo);
      var o: OutPoint :| IsFirstOut(o, todo);
      var utxo := rows.utxos[UtxoKey(sh, o)];
      var u := Utxo(o, utxo.height, utxo.value);
      SpellsStep(list, all, todo, u);
      OrderStep(list, todo, u);
      if !mempool.IsOutputSpent(o) {
        list := list + [u];
      }
      todo := todo - {o};
    }
    assert Except(all, {}) == all;
  }

  /** The whole unspent list adds up to the total that the balance is compared with. */
  lemma {:induction false} UnspentListTotal(rows: Rows, ov: OverlayView, sh: Hash, list: seq<Utxo>, n: nat)
    requires n <= |list|
    requires Spells(list[..n], Except(Confirmed(rows, sh), ov.spentBy.Keys))
    requires Spells(list[n..], Spendable(ov, sh))
    ensures Total(list) == UnspentTotal(rows, ov, sh)
  {
    SpellsTotal(list[..n], Except(Confirmed(rows, sh), ov.spentBy.Keys));
    SpellsTotal(list[n..], Spendable(ov, sh));
    TotalPlus(list[..n], list[n..]);
    assert list[..n] + list[n..] == list;
  }

  lemma {:induction false} TotalPlus(a: seq<Utxo>, b: seq<Utxo>)
    ensures Total(a + b) == Total(a) + Total(b)
  {
    if b == [] {
      assert a + b == a;
    } else {
      var n := |b| - 1;
      TotalPlus(a, b[..n]);
      assert (a + b)[..|a + b| - 1] == a + b[..n];
    }
  }
}
