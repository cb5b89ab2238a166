/** The history rows of a chain: one for each transaction and each scripthash it touches. */
module HistoryRows {
  import opened Types
  import opened Store
  import opened Indexing
  import opened Replay

  /** Some history row says that transaction t at this height touches sh. */
  ghost predicate Listed(history: set<HistoryKey>, sh: Hash, height: int, t: nat) {
    exists idx :: HistoryKey(sh, height, t, idx) in history
  }

  /** The numbering of a block's rows is their position in its undo record. */
  lemma {:induction false} NumberIsPosition(order: Order, n: nat, height: int, p: nat)
    requires n <= |order| && p < |HistoryList(order, n, height)|
    ensures HistoryList(order, n, height)[p].index == p
  {
    if n > 0 && p < |HistoryList(order, n - 1, height)| {
      NumberIsPosition(order, n - 1, height, p);
    }
  }

  /** Row k of a block is there exactly when its number falls in the run of its transaction, at its scripthash. */
  lemma {:induction false} RowPlace(order: Order, n: nat, height: int, k: HistoryKey)
    requires n <= |order|
    ensures k in HistoryList(order, n, height) <==>
            && k.height == height && k.txIndex < n
            && var base := |HistoryList(order, k.txIndex, height)|;
               base <= k.index < base + |order[k.txIndex]| && order[k.txIndex][k.index - base] == k.scripthash
  {
    if n > 0 {
      RowPlace(order, n - 1, height, k);
      var before := HistoryList(order, n - 1, height);
      var last := TxHistory(order[n - 1], height, n - 1, |before|);
      assert k in HistoryList(order, n, height) <==> k in before || k in last;
      if k.height == height && k.txIndex == n - 1 && |before| <= k.index < |before| + |order[n - 1]| &&
         order[n - 1][k.index - |before|] == k.scripthash {
        assert last[k.index - |before|] == k;
      }
    }
  }

  /** A valid order gives every touched scripthash exactly one row per transaction. */
  lemma {:induction false} OneRowEach(rows: Rows, txs: seq<Tx>, order: Order, height: int, sh: Hash, t: nat)
    requires ValidOrder(rows, txs, order)
    ensures Listed(Elements(HistoryList(order, |order|, height)), sh, height, t) <==>
            t < |txs| && sh in NewlyTouched(rows, txs, t)
  {
    ListedIsTouched(rows, txs, order, height, sh, t);
    TouchedIsListed(rows, txs, order, height, sh, t);
  }

  lemma {:induction false} ListedIsTouched(rows: Rows, txs: seq<Tx>, order: Order, height: int, sh: Hash, t: nat)
    requires ValidOrder(rows, txs, order)
    ensures Listed(Elements(HistoryList(order, |order|, height)), sh, height, t) ==> t < |txs| && sh in NewlyTouched(rows, txs, t)
  {
    var list := HistoryList(order, |order|, height);
    if idx :| HistoryKey(sh, height, t, idx) in Elements(list) {
      RowPlace(order, |order|, height, HistoryKey(sh, height, t, idx));
      assert sh in order[t] && Enumerates(order[t], NewlyTouched(rows, txs, t));
    }
  }

  lemma {:induction false} TouchedIsListed(rows: Rows, txs: seq<Tx>, order: Order, height: int, sh: Hash, t: nat)
    requires ValidOrder(rows, txs, order)
    ensures t < |txs| && sh in NewlyTouched(rows, txs, t) ==> Listed(Elements(HistoryList(order, |order|, height)), sh, height, t)
  {
    if t < |txs| && sh in NewlyTouched(rows, txs, t) {
      assert Enumerates(order[t], NewlyTouched(rows, txs, t));
      var p :| 0 <= p < |order[t]| && order[t][p] == sh;
      var k := HistoryKey(sh, height, t, |HistoryList(order, t, height)| + p);
      RowPlace(order, |order|, height, k);
      assert k in Elements(HistoryList(order, |order|, height));
    }
  }

  lemma {:induction false} NumberUnique(rows: Rows, txs: seq<Tx>, order: Order, height: int, sh: Hash, t: nat, a: nat, b: nat)
    requires ValidOrder(rows, txs, order)
    requires HistoryKey(sh, height, t, a) in HistoryList(order, |order|, height)
    requires HistoryKey(sh, height, t, b) in HistoryList(order, |order|, height)
    ensures a == b
  {
    RowPlace(order, |order|, height, HistoryKey(sh, height, t, a));
    RowPlace(order, |order|, height, HistoryKey(sh, height, t, b));
    assert Enumerates(order[t], NewlyTouched(rows, txs, t));
  }

  lemma {:induction false} DistinctTouchesAll(rows: Rows, txs: seq<Tx>, t: nat)
    requires DistinctTxids(txs) && t < |txs|
    ensures NewlyTouched(rows, txs, t) == Touched(rows, txs, t)
  {
  }

  /** Transaction t of the block at this height touches sh, judged by the rows before that block. */
  ghost predicate TouchesAt(chain: seq<Entry>, start: int, n: nat, sh: Hash, height: int, t: nat)
    requires n <= |chain|
  {
    && start <= height < start + n
    && t < |chain[height - start].block.txs|
    && sh in Touched(Rebuild(chain, start, height - start), chain[height - start].block.txs, t)
  }

  ghost predicate SameNumber(history: set<HistoryKey>, sh: Hash, height: int, t: nat, a: nat, b: nat) {
    HistoryKey(sh, height, t, a) in history && HistoryKey(sh, height, t, b) in history ==> a == b
  }

  /** No scripthash has two rows for one transaction. */
  ghost predicate OneNumber(history: set<HistoryKey>) {
    forall sh, height, t, a, b {:trigger SameNumber(history, sh, height, t, a, b)} ::
      SameNumber(history, sh, height, t, a, b)
  }

  lemma {:induction false} ListedStep(rows: Rows, lo: int, e: Entry, hi: int, sh: Hash, height: int, t: nat)
    requires Spanning(rows, lo, hi) && ValidOrder(rows, e.block.txs, e.order) && DistinctTxids(e.block.txs)
    ensures Listed(IndexRows(rows, e.block, hi, e.order).history, sh, height, t) <==>
            if height == hi then t < |e.block.txs| && sh in Touched(rows, e.block.txs, t)
            else Listed(rows.history, sh, height, t)
  {
    var list := Elements(HistoryList(e.order, |e.order|, hi));
    HistoryHeights(e.order, |e.order|, hi);
    OneRowEach(rows, e.block.txs, e.order, hi, sh, t);
    if t < |e.block.txs| {
      DistinctTouchesAll(rows, e.block.txs, t);
    }
    var after := IndexRows(rows, e.block, hi, e.order).history;
    forall idx ensures HistoryKey(sh, height, t, idx) in after <==>
                       if height == hi then HistoryKey(sh, height, t, idx) in list
                       else HistoryKey(sh, height, t, idx) in rows.history
    {
    }
  }

  lemma {:induction false} OneNumberStep(rows: Rows, lo: int, e: Entry, hi: int)
    requires Spanning(rows, lo, hi) && ValidOrder(rows, e.block.txs, e.order) && OneNumber(rows.history)
    ensures OneNumber(IndexRows(rows, e.block, hi, e.order).history)
  {
    HistoryHeights(e.order, |e.order|, hi);
    var after := IndexRows(rows, e.block, hi, e.order).history;
    forall sh, height, t: nat, a: nat, b: nat ensures SameNumber(after, sh, height, t, a, b) {
      assert SameNumber(rows.history, sh, height, t, a, b);
      if height == hi && HistoryKey(sh, height, t, a) in after && HistoryKey(sh, height, t, b) in after {
        NumberUnique(rows, e.block.txs, e.order, hi, sh, t, a, b);
      }
    }
  }

  /** The history rows of a chain list each touching transaction, once for each scripthash. */
  lemma {:induction false} HistoryExact(chain: seq<Entry>, start: int, n: nat, sh: Hash, height: int, t: nat)
    requires UniqueTxids(chain) && Ordered(chain, start) && n <= |chain|
    ensures Listed(Rebuild(chain, start, n).history, sh, height, t) <==> TouchesAt(chain, start, n, sh, height, t)
  {
    if n > 0 {
      HistoryExact(chain, start, n - 1, sh, height, t);
      HistoryStep(chain, start, n - 1, sh, height, t);
    }
  }

  lemma {:induction false} HistoryStep(chain: seq<Entry>, start: int, n: nat, sh: Hash, height: int, t: nat)
    requires UniqueTxids(chain) && Ordered(chain, start) && n < |chain|
    requires Listed(Rebuild(chain, start, n).history, sh, height, t) <==> TouchesAt(chain, start, n, sh, height, t)
    ensures Listed(Rebuild(chain, start, n + 1).history, sh, height, t) <==> TouchesAt(chain, start, n + 1, sh, height, t)
  {
    RebuildListed(chain, start, n, sh, height, t);
  }

  lemma {:induction false} RebuildListed(chain: seq<Entry>, start: int, n: nat, sh: Hash, height: int, t: nat)
    requires UniqueTxids(chain) && Ordered(chain, start) && n < |chain|
    ensures Listed(Rebuild(chain, start, n + 1).history, sh, height, t) <==>
            if height == start + n
            then t < |chain[n].block.txs| && sh in Touched(Rebuild(chain, start, n), chain[n].block.txs, t)
            else Listed(Rebuild(chain, start, n).history, sh, height, t)
  {
    var rows := KnownNumbered(chain, start, n);
    ListedStep(rows, start, chain[n], start + n, sh, height, t);
  }

  /** The rows below entry n, with what numbering that entry needs. */
  lemma {:induction false} KnownNumbered(chain: seq<Entry>, start: int, n: nat) returns (rows: Rows)
    requires UniqueTxids(chain) && Ordered(chain, start) && n < |chain|
    ensures rows == Rebuild(chain, start, n)
    ensures Spanning(rows, start, start + n)
    ensures ValidOrder(rows, chain[n].block.txs, chain[n].order)
    ensures DistinctTxids(chain[n].block.txs)
  {
    rows := Rebuild(chain, start, n);
    RebuildSettled(chain, start, n);
    assert Fresh(chain[n].block.txs, ChainTxids(chain, n));
    assert NumberedAt(chain, start, n);
  }

  lemma {:induction false} HistoryOnce(chain: seq<Entry>, start: int, n: nat)
    requires UniqueTxids(chain) && Ordered(chain, start) && n <= |chain|
    ensures OneNumber(Rebuild(chain, start, n).history)
  {
    if n > 0 {
      HistoryOnce(chain, start, n - 1);
      OnceStep(chain, start, n - 1);
    }
  }

  lemma {:induction false} OnceStep(chain: seq<Entry>, start: int, n: nat)
    requires UniqueTxids(chain) && Ordered(chain, start) && n < |chain| && OneNumber(Rebuild(chain, start, n).history)
    ensures OneNumber(Rebuild(chain, start, n + 1).history)
  {
    var rows := KnownNumbered(chain, start, n);
    OneNumberStep(rows, start, chain[n], start + n);
  }

  /** A transaction touches the scripthashes of its own outputs, and those of the earlier blocks' outputs it spends. */
  lemma {:induction false} TouchedMeaning(chain: seq<Entry>, start: int, n: nat, sh: Hash, t: nat)
    requires UniqueTxids(chain) && n < |chain| && t < |chain[n].block.txs|
    ensures sh in Touched(Rebuild(chain, start, n), chain[n].block.txs, t) <==>
            || sh in IndexedScripthashes(chain[n].block.txs[t].outs)
            || (t > 0 && SpendsLive(chain, start, n, chain[n].block.txs[t].ins, sh))
  {
    var rows, ins := Rebuild(chain, start, n), chain[n].block.txs[t].ins;
    RebuildSettled(chain, start, n);
    if sh in Scripthashes(Spent(rows, ins)) {
      var u :| u in Spent(rows, ins) && u.scripthash == sh;
      SpentExact(rows, ins, u);
      UtxoRowsExact(chain, start, n, UtxoKey(sh, u.out), u.Row());
      assert HasInput(ins, u.out) && Live(chain, start, n, UtxoKey(sh, u.out), u.Row());
    }
    if SpendsLive(chain, start, n, ins, sh) {
      var o, v :| HasInput(ins, o) && Live(chain, start, n, UtxoKey(sh, o), v);
      UtxoRowsExact(chain, start, n, UtxoKey(sh, o), v);
      var u := AsUndo(rows, UtxoKey(sh, o));
      assert Backed(rows, u);
      SpentExact(rows, ins, u);
      assert u in Spent(rows, ins);
    }
  }

  /** One of these inputs spends an output to sh that the first n blocks left unspent. */
  ghost predicate SpendsLive(chain: seq<Entry>, start: int, n: nat, ins: seq<TxIn>, sh: Hash)
    requires n <= |chain|
  {
    exists o, v :: HasInput(ins, o) && Live(chain, start, n, UtxoKey(sh, o), v)
  }

  // ----- the numbering is the only freedom

  ghost predicate SameUnspent(a: Rows, b: Rows) {
    a.utxos == b.utxos && a.outpoints == b.outpoints
  }

  lemma {:induction false} SameSpent(a: Rows, b: Rows, ins: seq<TxIn>)
    requires SameUnspent(a, b)
    ensures Spent(a, ins) == Spent(b, ins)
  {
    if ins != [] {
      SameSpent(a, b, ins[..|ins| - 1]);
    }
  }

  lemma {:induction false} SamePending(a: Rows, b: Rows, block: Block, height: int, n: nat)
    requires SameUnspent(a, b) && n <= |block.txs|
    ensures PendingUtxos(a, block, height, n) == PendingUtxos(b, block, height, n)
    ensures PendingOutpoints(a, block, height, n) == PendingOutpoints(b, block, height, n)
  {
    if n > 0 {
      SamePending(a, b, block, height, n - 1);
      SameSpent(a, b, block.txs[n - 1].ins);
    }
  }

  ghost predicate SameBlocks(chain: seq<Entry>, other: seq<Entry>) {
    |chain| == |other| && forall i :: 0 <= i < |chain| ==> chain[i].block == other[i].block
  }

  ghost predicate SameButHistory(a: Rows, b: Rows) {
    SameUnspent(a, b) && a.headers == b.headers && a.txids == b.txids
  }

  lemma {:induction false} SameStep(a: Rows, b: Rows, e: Entry, f: Entry, height: int)
    requires SameButHistory(a, b) && e.block == f.block
    ensures SameButHistory(IndexRows(a, e.block, height, e.order), IndexRows(b, f.block, height, f.order))
  {
    SamePending(a, b, e.block, height, |e.block.txs|);
  }

  /** Entry n - 1 keeps two rebuilds the same. */
  lemma {:induction false} SameEntry(chain: seq<Entry>, other: seq<Entry>, start: int, n: nat)
    requires 0 < n <= |chain| && SameBlocks(chain, other)
    requires SameButHistory(Rebuild(chain, start, n - 1), Rebuild(other, start, n - 1))
    ensures SameButHistory(Rebuild(chain, start, n), Rebuild(other, start, n))
  {
    NextRows(chain, start, n);
    NextRows(other, start, n);
    SameNext(chain[n - 1], other[n - 1], start + n - 1, Rebuild(chain, start, n - 1), Rebuild(other, start, n - 1),
             Rebuild(chain, start, n), Rebuild(other, start, n));
  }

  lemma {:induction false} NextRows(chain: seq<Entry>, start: int, n: nat)
    requires 0 < n <= |chain|
    ensures Rebuild(chain, start, n) ==
            IndexRows(Rebuild(chain, start, n - 1), chain[n - 1].block, start + n - 1, chain[n - 1].order)
  {
  }

  lemma {:induction false} SameNext(e: Entry, f: Entry, height: int, a: Rows, b: Rows, c: Rows, d: Rows)
    requires SameButHistory(a, b) && e.block == f.block
    requires c == IndexRows(a, e.block, height, e.order) && d == IndexRows(b, f.block, height, f.order)
    ensures SameButHistory(c, d)
  {
    SameStep(a, b, e, f, height);
  }

  lemma {:induction false} SameRows(chain: seq<Entry>, other: seq<Entry>, start: int, n: nat)
    requires SameBlocks(chain, other) && n <= |chain|
    ensures SameButHistory(Rebuild(chain, start, n), Rebuild(other, start, n))
  {
    if n > 0 {
      SameRows(chain, other, start, n - 1);
      SameEntry(chain, other, start, n);
    }
  }

  /** Two runs over the same blocks differ in the numbers of their history rows and in nothing else. */
  lemma {:induction false} NumberingIsAllThatVaries(chain: seq<Entry>, other: seq<Entry>, start: int, sh: Hash, height: int, t: nat)
    requires SameBlocks(chain, other)
    requires UniqueTxids(chain) && Ordered(chain, start) && UniqueTxids(other) && Ordered(other, start)
    ensures var a, b := Rebuild(chain, start, |chain|), Rebuild(other, start, |other|);
            && SameButHistory(a, b)
            && (Listed(a.history, sh, height, t) <==> Listed(b.history, sh, height, t))
  {
    SameRows(chain, other, start, |chain|);
    SameListed(chain, other, start, sh, height, t);
  }

  lemma {:induction false} SameListed(chain: seq<Entry>, other: seq<Entry>, start: int, sh: Hash, height: int, t: nat)
    requires SameBlocks(chain, other)
    requires UniqueTxids(chain) && Ordered(chain, start) && UniqueTxids(other) && Ordered(other, start)
    ensures Listed(Rebuild(chain, start, |chain|).history, sh, height, t) <==>
            Listed(Rebuild(other, start, |other|).history, sh, height, t)
  {
    HistoryExact(chain, start, |chain|, sh, height, t);
    HistoryExact(other, start, |other|, sh, height, t);
    SameTouches(chain, other, start, sh, height, t);
  }

  lemma {:induction false} SameTouches(chain: seq<Entry>, other: seq<Entry>, start: int, sh: Hash, height: int, t: nat)
    requires SameBlocks(chain, other)
    ensures TouchesAt(chain, start, |chain|, sh, height, t) <==> TouchesAt(other, start, |other|, sh, height, t)
  {
    TouchesCarry(chain, other, start, sh, height, t);
    TouchesCarry(other, chain, start, sh, height, t);
  }

  lemma {:induction false} TouchesCarry(chain: seq<Entry>, other: seq<Entry>, start: int, sh: Hash, height: int, t: nat)
    requires SameBlocks(chain, other)
    ensures TouchesAt(chain, start, |chain|, sh, height, t) ==> TouchesAt(other, start, |other|, sh, height, t)
  {
    if TouchesAt(chain, start, |chain|, sh, height, t) {
      SameTouchedAt(chain, other, start, height - start, t);
    }
  }

  lemma {:induction false} SameTouchedAt(chain: seq<Entry>, other: seq<Entry>, start: int, n: nat, t: nat)
    requires SameBlocks(chain, other) && n < |chain| && t < |chain[n].block.txs|
    ensures Touched(Rebuild(chain, start, n), chain[n].block.txs, t) == Touched(Rebuild(other, start, n), other[n].block.txs, t)
  {
    var a, b := Rebuild(chain, start, n), Rebuild(other, start, n);
    SameRows(chain, other, start, n);
    SameTouched(a, b, chain[n].block.txs, t);
  }

  lemma {:induction false} SameTouched(a: Rows, b: Rows, txs: seq<Tx>, t: nat)
    requires SameButHistory(a, b) && t < |txs|
    ensures Touched(a, txs, t) == Touched(b, txs, t)
  {
    SameSpent(a, b, txs[t].ins);
  }
}
