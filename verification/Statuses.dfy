/** Scripthash statuses, their cache, and the scripthashes that a block or a mempool change affects. */
module Statuses {
  import opened Types
  import opened Store
  import opened Indexing
  import opened Replay
  import opened ChainSync
  import opened HistoryRows
  import opened Overlay
  import opened OverlayRuns
  import opened Attribution
  import opened Mempool
  import opened Indexer
  import opened HistoryQuery
  import opened Balance

  // ----- the status of a scripthash

  /** What a status digests: the confirmed history, and the mempool transactions, which come in no particular order. */
  datatype Status = Status(confirmed: seq<Item>, pending: set<Hash>)

  ghost function StatusOf(rows: Rows, ov: OverlayView, sh: Hash): Status {
    var confirmed := ConfirmedItems(rows, sh);
    Status(confirmed, Filed(ov, sh) - TxidsOf(confirmed))
  }

  /** On whatever chain the rows replay, a status holds the transactions that touch sh, once each, in chain order, and the
      filed ones that are not among them. */
  ghost predicate Digests(rows: Rows, ov: OverlayView, sh: Hash, status: Status) {
    && ChainOrdered(rows, sh, status.confirmed)
    && (forall t {:trigger t in status.pending} :: t in status.pending <==>
          t in Filed(ov, sh) && forall i :: 0 <= i < |status.confirmed| ==> status.confirmed[i].txid != t)
  }

  lemma {:induction false} StatusDigests(rows: Rows, ov: OverlayView, sh: Hash)
    ensures Digests(rows, ov, sh, StatusOf(rows, ov, sh))
  {
    var confirmed := ConfirmedItems(rows, sh);
    ConfirmedInChainOrder(rows, sh);
    forall t ensures t in TxidsOf(confirmed) <==> exists i :: 0 <= i < |confirmed| && confirmed[i].txid == t {
      if t in TxidsOf(confirmed) {
        var x :| x in confirmed && x.txid == t;
        var i :| 0 <= i < |confirmed| && confirmed[i] == x;
      }
      if i :| 0 <= i < |confirmed| && confirmed[i].txid == t {
        assert confirmed[i] in confirmed;
      }
    }
  }

  method ComputeScripthashStatus(mempool: MempoolOverlay, sh: Hash) returns (status: Status)
    requires mempool.Valid()
    ensures status == StatusOf(mempool.store.db.rows, mempool.view, sh)
    ensures Digests(mempool.store.db.rows, mempool.view, sh, status)
  {
    var list, n := CollectHistory(mempool, sh);
    status := Status(list[..n], TxidsOf(list[n..]));
    StatusDigests(mempool.store.db.rows, mempool.view, sh);
  }

  // ----- the scripthashes a block affects

  function AffectedIn(rows: Rows, ins: seq<TxIn>): set<Hash> {
    set i | i in ins && !IsCoinbaseInput(i) && i.prev in rows.outpoints :: rows.outpoints[i.prev]
  }

  function AffectedBy(rows: Rows, txs: seq<Tx>, n: nat): set<Hash>
    requires n <= |txs|
  {
    if n == 0 then {} else
    AffectedBy(rows, txs, n - 1) + AffectedIn(rows, txs[n - 1].ins) + IndexedScripthashes(txs[n - 1].outs)
  }

  function Affected(rows: Rows, txs: seq<Tx>): set<Hash> {
    AffectedBy(rows, txs, |txs|)
  }

  lemma {:induction false} AffectedInStep(rows: Rows, ins: seq<TxIn>, i: nat)
    requires i < |ins|
    ensures AffectedIn(rows, ins[..i + 1]) ==
            AffectedIn(rows, ins[..i]) +
            if IsCoinbaseInput(ins[i]) || ins[i].prev !in rows.outpoints then {} else {rows.outpoints[ins[i].prev]}
  {
    assert forall x :: x in ins[..i + 1] <==> x in ins[..i] || x == ins[i];
  }

  method CollectAffectedScripthashes(store: Database, txs: seq<Tx>) returns (affected: set<Hash>)
    ensures affected == Affected(store.db.rows, txs)
  {
    affected := {};
    for i := 0 to |txs|
      invariant affected == AffectedBy(store.db.rows, txs, i)
    {
      affected := CollectInputs(store, txs[i].ins, affected);
      affected := CollectOutputs(txs[i], affected);
    }
  }

  method CollectInputs(store: Database, ins: seq<TxIn>, before: set<Hash>) returns (affected: set<Hash>)
    ensures affected == before + AffectedIn(store.db.rows, ins)
  {
    affected := before;
    for j := 0 to |ins|
      invariant affected == before + AffectedIn(store.db.rows, ins[..j])
    {
      AffectedInStep(store.db.rows, ins, j);
      if !IsCoinbaseInput(ins[j]) && ins[j].prev in store.db.rows.outpoints {
        affected := affected + {store.db.rows.outpoints[ins[j].prev]};
      }
    }
    assert ins[..|ins|] == ins;
  }

  method CollectOutputs(tx: Tx, before: set<Hash>) returns (affected: set<Hash>)
    ensures affected == before + IndexedScripthashes(tx.outs)
  {
    affected := before;
    for j := 0 to |tx.outs|
      invariant affected == before + IndexedScripthashes(tx.outs[..j])
    {
      OutputStep(tx.txid, tx.outs, 0, ZERO_HASH, j);
      if IsOpReturn(tx.outs[j].script) || tx.outs[j].value == 0 {
        continue;
      }
      affected := affected + {tx.outs[j].scripthash};
    }
    assert tx.outs[..|tx.outs|] == tx.outs;
  }

  // ----- the confirmed history of an unaffected scripthash

  lemma {:induction false} AffectedAt(rows: Rows, txs: seq<Tx>, n: nat, t: nat)
    requires t < n <= |txs|
    ensures AffectedIn(rows, txs[t].ins) <= AffectedBy(rows, txs, n)
    ensures IndexedScripthashes(txs[t].outs) <= AffectedBy(rows, txs, n)
  {
    if t < n - 1 {
      AffectedAt(rows, txs, n - 1, t);
    }
  }

  lemma {:induction false} TouchedIsAffected(rows: Rows, txs: seq<Tx>, t: nat)
    requires t < |txs|
    ensures Touched(rows, txs, t) <= Affected(rows, txs)
  {
    AffectedAt(rows, txs, |txs|, t);
    forall sh | sh in Scripthashes(Spent(rows, txs[t].ins)) ensures sh in AffectedIn(rows, txs[t].ins) {
      var u :| u in Spent(rows, txs[t].ins) && u.scripthash == sh;
      SpentExact(rows, txs[t].ins, u);
      assert TxIn(u.out) in txs[t].ins;
    }
  }

  /** A block adds no history row for a scripthash it does not affect. */
  lemma {:induction false} NoNewRows(rows: Rows, b: Block, hi: int, order: Order, sh: Hash)
    requires ValidOrder(rows, b.txs, order) && sh !in Affected(rows, b.txs)
    ensures KeysOf(IndexRows(rows, b, hi, order).history, sh) == KeysOf(rows.history, sh)
  {
    forall k | k in HistoryList(order, |order|, hi) ensures k.scripthash != sh {
      RowPlace(order, |order|, hi, k);
      assert k.scripthash in order[k.txIndex];
      assert Enumerates(order[k.txIndex], NewlyTouched(rows, b.txs, k.txIndex));
      TouchedIsAffected(rows, b.txs, k.txIndex);
    }
  }

  lemma {:induction false} ItemsSame(a: Rows, b: Rows, keys: seq<HistoryKey>)
    requires forall k :: k in keys ==> Resolved(a, k) == Resolved(b, k)
    ensures Items(a, keys) == Items(b, keys)
  {
    if keys != [] {
      ItemsSame(a, b, keys[..|keys| - 1]);
    }
  }

  lemma {:induction false} ConfirmedSame(rows: Rows, lo: int, b: Block, hi: int, order: Order, sh: Hash)
    requires Spanning(rows, lo, hi) && ValidOrder(rows, b.txs, order) && sh !in Affected(rows, b.txs)
    ensures ConfirmedItems(IndexRows(rows, b, hi, order), sh) == ConfirmedItems(rows, sh)
  {
    var after := IndexRows(rows, b, hi, order);
    NoNewRows(rows, b, hi, order, sh);
    var keys := Sorted(KeysOf(rows.history, sh), sh);
    SortedExact(KeysOf(rows.history, sh), sh);
    forall k | k in keys ensures Resolved(rows, k) == Resolved(after, k) {
      assert k in rows.history;
    }
    ItemsSame(rows, after, keys);
  }

  ghost predicate Replays(chain: seq<Entry>, start: int, rows: Rows) {
    UniqueTxids(chain) && rows == Rebuild(chain, start, |chain|)
  }

  // ----- its mempool transactions

  /** A held input's scripthash is collected with the block: from the outpoint row of its output, or from the block that makes it. */
  lemma {:induction false} InputIsAffected(u: Universe, chain: seq<Entry>, start: int, rows: Rows, txs: seq<Tx>, t: nat, i: MempoolInput)
    requires Replays(chain, start, rows) && ChainDrawn(u, chain) && OutpointsRight(u, rows.outpoints)
    requires Drawn(u, txs) && SpendsWell(u, chain, txs) && t < |txs| && InputRight(u, txs[t], i) && i.scripthash.Some?
    ensures i.scripthash.value in Affected(rows, txs)
  {
    var o, sh := i.prev, i.scripthash.value;
    assert HasInput(txs[t].ins, o) && MaySpend(u, chain, txs, o);
    if o.txid in Elements(Txids(txs)) {
      MadeBy(u, txs, o, sh);
      var made :| 0 <= made < |txs| && txs[made].txid == o.txid && o.vout < |txs[made].outs| &&
                  txs[made].outs[o.vout] == u[o.txid].outs[o.vout];
      AffectedAt(rows, txs, |txs|, made);
      assert txs[made].outs[o.vout] in txs[made].outs;
    } else {
      UnspentIsKnown(u, chain, start, rows, o, sh);
      AffectedAt(rows, txs, |txs|, t);
      assert TxIn(o) in txs[t].ins;
    }
  }

  /** Whatever the overlay filed a transaction of the block under is collected. */
  ghost predicate Covers(rows: Rows, ov: OverlayView, txs: seq<Tx>, t: nat)
    requires t < |txs|
  {
    txs[t].txid in ov.transactions ==> ov.transactions[txs[t].txid].scripthashes <= Affected(rows, txs)
  }

  ghost predicate CoversAll(rows: Rows, ov: OverlayView, txs: seq<Tx>) {
    forall t {:trigger Covers(rows, ov, txs, t)} :: 0 <= t < |txs| ==> Covers(rows, ov, txs, t)
  }

  lemma {:induction false} HeldIsAffected(u: Universe, chain: seq<Entry>, start: int, rows: Rows, ov: OverlayView, txs: seq<Tx>)
    requires Replays(chain, start, rows) && ChainDrawn(u, chain) && OutpointsRight(u, rows.outpoints)
    requires Drawn(u, txs) && SpendsWell(u, chain, txs) && AllHeldRight(u, ov.transactions)
    ensures CoversAll(rows, ov, txs)
  {
    forall t | 0 <= t < |txs| ensures Covers(rows, ov, txs, t) {
      if txs[t].txid in ov.transactions {
        OneIsAffected(u, chain, start, rows, ov, txs, t);
      }
    }
  }

  lemma {:induction false} OneIsAffected(u: Universe, chain: seq<Entry>, start: int, rows: Rows, ov: OverlayView, txs: seq<Tx>, t: nat)
    requires Replays(chain, start, rows) && ChainDrawn(u, chain) && OutpointsRight(u, rows.outpoints)
    requires Drawn(u, txs) && SpendsWell(u, chain, txs) && AllHeldRight(u, ov.transactions)
    requires t < |txs| && txs[t].txid in ov.transactions
    ensures Covers(rows, ov, txs, t)
  {
    var held := ov.transactions[txs[t].txid];
    assert txs[t] in txs && HeldRight(u, txs[t].txid, held);
    AffectedAt(rows, txs, |txs|, t);
    forall sh | sh in InputScripthashes(held.inputs) ensures sh in Affected(rows, txs) {
      var i :| i in held.inputs && i.scripthash == Some(sh);
      InputIsAffected(u, chain, start, rows, txs, t, i);
    }
  }

  lemma {:induction false} FiledAfterRemoval(ov: OverlayView, txid: Hash, sh: Hash)
    requires txid in ov.transactions ==> sh !in ov.transactions[txid].scripthashes
    ensures Filed(Removed(ov, txid), sh) == Filed(ov, sh)
  {
  }

  lemma {:induction false} FiledAfterBlock(ov: OverlayView, rows: Rows, txs: seq<Tx>, n: nat, sh: Hash)
    requires n <= |txs| && sh !in Affected(rows, txs)
    requires CoversAll(rows, ov, txs)
    ensures var now := ConfirmBlock(ov, rows, txs, n);
            && Filed(now, sh) == Filed(ov, sh)
            && forall id {:trigger id in now.transactions} :: id in now.transactions ==> id in ov.transactions && now.transactions[id] == ov.transactions[id]
  {
    if n > 0 {
      FiledAfterBlock(ov, rows, txs, n - 1, sh);
      var before := ConfirmBlock(ov, rows, txs, n - 1);
      var less := if n == 1 then before else OutputsRemoved(before, KnownPrevs(rows, txs[n - 1].ins));
      assert Covers(rows, ov, txs, n - 1);
      FiledAfterRemoval(less, txs[n - 1].txid, sh);
    }
  }

  /** The chain behind the rows, with everything in it and in the overlay attributed to the right scripthashes. */
  ghost predicate Settled(u: Universe, chain: seq<Entry>, start: int, rows: Rows, ov: OverlayView) {
    && Replays(chain, start, rows) && ChainDrawn(u, chain)
    && OutpointsRight(u, rows.outpoints) && OverlayRight(u, ov)
  }

  /** After a block, every scripthash that was not collected still has the status it had. */
  lemma {:induction false} BlockChangesOnlyAffected(u: Universe, chain: seq<Entry>, start: int, rows: Rows, ov: OverlayView, e: Entry, sh: Hash)
    requires Settled(u, chain, start, rows, ov) && Drawn(u, e.block.txs) && SpendsWell(u, chain, e.block.txs)
    requires ValidOrder(rows, e.block.txs, e.order) && sh !in Affected(rows, e.block.txs)
    ensures StatusOf(IndexRows(rows, e.block, start + |chain|, e.order), ConfirmBlock(ov, rows, e.block.txs, |e.block.txs|), sh) ==
            StatusOf(rows, ov, sh)
  {
    assert Spanning(rows, start, start + |chain|) && CoversAll(rows, ov, e.block.txs) by {
      SettledCovers(u, chain, start, rows, ov, e.block.txs);
    }
    StatusSame(rows, ov, start, e.block, start + |chain|, e.order, sh);
  }

  lemma {:induction false} SettledCovers(u: Universe, chain: seq<Entry>, start: int, rows: Rows, ov: OverlayView, txs: seq<Tx>)
    requires Settled(u, chain, start, rows, ov) && Drawn(u, txs) && SpendsWell(u, chain, txs)
    ensures Spanning(rows, start, start + |chain|) && CoversAll(rows, ov, txs)
  {
    RowsSpan(chain, start, rows);
    HeldIsAffected(u, chain, start, rows, ov, txs);
  }

  lemma {:induction false} StatusSame(rows: Rows, ov: OverlayView, lo: int, b: Block, hi: int, order: Order, sh: Hash)
    requires Spanning(rows, lo, hi) && ValidOrder(rows, b.txs, order) && CoversAll(rows, ov, b.txs) && sh !in Affected(rows, b.txs)
    ensures StatusOf(IndexRows(rows, b, hi, order), ConfirmBlock(ov, rows, b.txs, |b.txs|), sh) == StatusOf(rows, ov, sh)
  {
    ConfirmedSame(rows, lo, b, hi, order, sh);
    FiledAfterBlock(ov, rows, b.txs, |b.txs|, sh);
  }

  /** The scripthashes that a mempool operation reports. */
  ghost function Reported(ov: OverlayView, op: Operation): set<Hash> {
    match op
    case Add(rows, tx) => if Refused(ov, tx) then {} else NewTx(ov, rows, tx).scripthashes
    case Remove(txid) => if txid in ov.transactions then ov.transactions[txid].scripthashes else {}
    case Reconcile(valid) => ScripthashesOf(ov.transactions, ov.transactions.Keys - valid)
    case Clear => {}
  }

  lemma {:induction false} FiledMeans(ov: OverlayView, sh: Hash, t: Hash)
    requires FiledExactly(ov)
    ensures t in Filed(ov, sh) <==> Touches(ov.transactions, t, sh)
  {
    assert Lists(ov.byScripthash, sh, t) <==> Touches(ov.transactions, t, sh);
  }

  /** The filing is right; a status reads nothing else of the overlay. */
  ghost predicate FiledExactly(ov: OverlayView) {
    ExactScripthashes(ov.transactions, ov.byScripthash)
  }

  lemma {:induction false} DroppedFiled(ov: OverlayView, ids: set<Hash>)
    requires FiledExactly(ov) && ids <= ov.transactions.Keys
    ensures FiledExactly(Dropped(ov, ids))
  {
    if ids == {} {
      DroppedNone(ov);
    } else {
      var t :| t in ids;
      var rest := ids - {t};
      DroppedFiled(ov, rest);
      DroppedStep(ov, rest, t);
      RemovedScripthashes(Dropped(ov, rest), t);
      assert rest + {t} == ids;
    }
  }

  lemma {:induction false} StepFiled(was: OverlayView, op: Operation, now: OverlayView)
    requires FiledExactly(was) && OverlayStep(was, op, now)
    ensures FiledExactly(now)
  {
    match op {
      case Add(rows, tx) =>
        if !Refused(was, tx) {
          AddedScripthashes(was, now.transactions, NewTx(was, rows, tx), tx.txid);
        }
      case Remove(txid) => if txid in was.transactions { RemovedScripthashes(was, txid); }
      case Reconcile(valid) => DroppedFiled(was, was.transactions.Keys - valid);
      case Clear =>
    }
  }

  lemma {:induction false} BlockFiled(ov: OverlayView, rows: Rows, txs: seq<Tx>, n: nat)
    requires n <= |txs| && FiledExactly(ov)
    ensures FiledExactly(ConfirmBlock(ov, rows, txs, n))
  {
    if n > 0 {
      BlockFiled(ov, rows, txs, n - 1);
      var before := ConfirmBlock(ov, rows, txs, n - 1);
      if txs[n - 1].txid in before.transactions {
        RemovedScripthashes(before, txs[n - 1].txid);
      }
    }
  }

  /** An operation leaves the mempool transactions of every other scripthash alone. */
  lemma {:induction false} OperationChangesOnlyReported(was: OverlayView, op: Operation, now: OverlayView, sh: Hash)
    requires FiledExactly(was) && OverlayStep(was, op, now) && op != Clear && sh !in Reported(was, op)
    ensures Filed(now, sh) == Filed(was, sh)
  {
    StepFiled(was, op, now);
    forall t ensures t in Filed(now, sh) <==> t in Filed(was, sh) {
      FiledMeans(was, sh, t);
      FiledMeans(now, sh, t);
      assert Touches(was.transactions, t, sh) && t !in now.transactions ==> sh in Reported(was, op);
    }
  }

  /** And changes them for every scripthash that it reports. */
  lemma {:induction false} ReportedIsChanged(was: OverlayView, op: Operation, now: OverlayView, sh: Hash)
    requires FiledExactly(was) && OverlayStep(was, op, now) && sh in Reported(was, op)
    ensures Filed(now, sh) != Filed(was, sh)
  {
    StepFiled(was, op, now);
    match op {
      case Add(rows, tx) =>
        FiledMeans(was, sh, tx.txid);
        FiledMeans(now, sh, tx.txid);
      case Remove(txid) =>
        FiledMeans(was, sh, txid);
        FiledMeans(now, sh, txid);
      case Reconcile(valid) =>
        var t :| t in was.transactions.Keys - valid && sh in was.transactions[t].scripthashes;
        FiledMeans(was, sh, t);
        FiledMeans(now, sh, t);
    }
  }

  // ----- the cache

  datatype Cache = Cache(status: map<Hash, Status>, dirty: set<Hash>) {
    predicate Clean(sh: Hash) { sh in status && sh !in dirty }
    function Mark(scripthashes: set<Hash>): Cache { Cache(status, dirty + scripthashes) }
    function Store(sh: Hash, s: Status): Cache { Cache(status[sh := s], dirty - {sh}) }
  }

  ghost predicate CleanIsRight(c: Cache, rows: Rows, ov: OverlayView, sh: Hash) {
    c.Clean(sh) ==> c.status[sh] == StatusOf(rows, ov, sh)
  }

  /** Every clean entry is what recomputing it would give. */
  ghost predicate Right(c: Cache, rows: Rows, ov: OverlayView) {
    forall sh {:trigger CleanIsRight(c, rows, ov, sh)} :: CleanIsRight(c, rows, ov, sh)
  }

  class StatusCache {
    var status: map<Hash, Status>
    var dirty: set<Hash>

    constructor ()
      ensures Contents() == Cache(map[], {})
    {
      status, dirty := map[], {};
    }

    function Contents(): Cache
      reads this
    {
      Cache(status, dirty)
    }

    method GetIfClean(sh: Hash) returns (r: Option<Status>)
      ensures r == if sh in status && sh !in dirty then Some(status[sh]) else None
    {
      if sh in dirty || sh !in status {
        return None;
      }
      r := Some(status[sh]);
    }

    method SetClean(sh: Hash, s: Status)
      modifies this
      ensures Contents() == old(Contents()).Store(sh, s)
      ensures status == old(status)[sh := s] && dirty == old(dirty) - {sh}
    {
      status, dirty := status[sh := s], dirty - {sh};
    }

    method MarkDirtyMany(scripthashes: seq<Hash>)
      modifies this
      ensures Contents() == old(Contents()).Mark(Elements(scripthashes))
      ensures status == old(status) && forall sh :: sh in dirty <==> sh in old(dirty) || sh in scripthashes
    {
      for i := 0 to |scripthashes|
        invariant Contents() == old(Contents()).Mark(Elements(scripthashes[..i]))
      {
        assert scripthashes[..i + 1] == scripthashes[..i] + [scripthashes[i]];
        dirty := dirty + {scripthashes[i]};
      }
      assert scripthashes[..|scripthashes|] == scripthashes;
    }
  }

  /** Answers from the cache if the entry is clean, else recomputes and stores. */
  method ComputeScripthashStatusHex(cache: StatusCache, mempool: MempoolOverlay, sh: Hash) returns (status: Status)
    requires mempool.Valid() && Right(cache.Contents(), mempool.store.db.rows, mempool.view)
    modifies cache
    ensures status == StatusOf(old(mempool.store.db.rows), old(mempool.view), sh)
    ensures Digests(old(mempool.store.db.rows), old(mempool.view), sh, status)
    ensures cache.Contents() == if old(cache.Contents()).Clean(sh) then old(cache.Contents())
                                else old(cache.Contents()).Store(sh, status)
  {
    var cached := cache.GetIfClean(sh);
    assert CleanIsRight(cache.Contents(), mempool.store.db.rows, mempool.view, sh);
    if cached.Some? {
      StatusDigests(mempool.store.db.rows, mempool.view, sh);
      return cached.value;
    }
    status := ComputeScripthashStatus(mempool, sh);
    cache.SetClean(sh, status);
  }

  /** Clearing the overlay reports nothing, so the cache stays right only if no clean entry had pending transactions. */
  lemma {:induction false} ClearIsUnreported(c: Cache, rows: Rows, ov: OverlayView)
    requires Right(c, rows, ov)
    ensures Right(c, rows, EMPTY_OVERLAY) <==>
            forall sh {:trigger c.Clean(sh)} :: c.Clean(sh) ==> Filed(ov, sh) <= TxidsOf(ConfirmedItems(rows, sh))
  {
    forall sh ensures CleanIsRight(c, rows, EMPTY_OVERLAY, sh) <==>
                      (c.Clean(sh) ==> Filed(ov, sh) <= TxidsOf(ConfirmedItems(rows, sh)))
    {
      assert CleanIsRight(c, rows, ov, sh);
      assert Filed(EMPTY_OVERLAY, sh) == {};
      NothingLeft(Filed(ov, sh), TxidsOf(ConfirmedItems(rows, sh)));
      assert Filed(EMPTY_OVERLAY, sh) - TxidsOf(ConfirmedItems(rows, sh)) == {};
    }
  }

  // ----- blocks that go, or come, unreported

  /** Some transaction at or above entry n touches sh. */
  ghost predicate TouchedFrom(chain: seq<Entry>, start: int, n: nat, sh: Hash) {
    exists height, t {:trigger TouchesAt(chain, start, |chain|, sh, height, t)} ::
      height >= start + n && TouchesAt(chain, start, |chain|, sh, height, t)
  }

  /** The two agree on a history row and on what it names. */
  ghost predicate AgreeOn(a: Rows, b: Rows, k: HistoryKey) {
    (k in a.history <==> k in b.history) && Resolved(a, k) == Resolved(b, k)
  }

  lemma {:induction false} RowBelow(rows: Rows, e: Entry, height: int, k: HistoryKey)
    requires k.height < height
    ensures AgreeOn(rows, IndexRows(rows, e.block, height, e.order), k)
  {
    HistoryHeights(e.order, |e.order|, height);
  }

  /** The two agree on every history row below a height. */
  ghost predicate SameBelow(a: Rows, b: Rows, height: int) {
    forall k: HistoryKey {:trigger AgreeOn(a, b, k)} :: k.height < height ==> AgreeOn(a, b, k)
  }

  lemma {:induction false} EntryBelow(chain: seq<Entry>, start: int, m: nat, a: Rows, b: Rows, height: int)
    requires m < |chain| && height <= start + m && a == Rebuild(chain, start, m) && b == Rebuild(chain, start, m + 1)
    ensures SameBelow(a, b, height)
  {
    forall k: HistoryKey | k.height < height ensures AgreeOn(a, b, k) {
      RowBelow(a, chain[m], start + m, k);
    }
  }

  lemma {:induction false} SameBelowTrans(a: Rows, b: Rows, c: Rows, height: int)
    requires SameBelow(a, b, height) && SameBelow(b, c, height)
    ensures SameBelow(a, c, height)
  {
    forall k: HistoryKey | k.height < height ensures AgreeOn(a, c, k) {
      assert AgreeOn(a, b, k) && AgreeOn(b, c, k);
    }
  }

  lemma {:induction false} RowsBelow(chain: seq<Entry>, start: int, n: nat, m: nat, a: Rows, b: Rows)
    requires n <= m <= |chain| && a == Rebuild(chain, start, n) && b == Rebuild(chain, start, m)
    ensures SameBelow(a, b, start + n)
  {
    if n < m {
      var mid := Rebuild(chain, start, m - 1);
      RowsBelow(chain, start, n, m - 1, a, mid);
      EntryBelow(chain, start, m - 1, mid, b, start + n);
      SameBelowTrans(a, mid, b, start + n);
    }
  }

  lemma {:induction false} ItemHeights(rows: Rows, keys: seq<HistoryKey>, x: Item)
    requires x in Items(rows, keys)
    ensures exists k {:trigger k in keys} :: k in keys && k.height == x.height
  {
    var init, k := keys[..|keys| - 1], keys[|keys| - 1];
    assert k in keys && forall j :: j in init ==> j in keys;
    if x in Items(rows, init) {
      ItemHeights(rows, init, x);
    }
  }

  /** Items of the shorter chain lie below its end. */
  lemma {:induction false} ItemsLieBelow(chain: seq<Entry>, start: int, n: nat, before: Rows, sh: Hash, x: Item)
    requires UniqueTxids(chain) && n <= |chain| && before == Rebuild(chain, start, n) && x in ConfirmedItems(before, sh)
    ensures x.height < start + n
  {
    var keys := Sorted(KeysOf(before.history, sh), sh);
    SortedExact(KeysOf(before.history, sh), sh);
    ItemHeights(before, keys, x);
    KnownSettled(chain, start, n, before, ChainTxids(chain, n));
  }

  lemma {:induction false} TouchIsListed(chain: seq<Entry>, start: int, rows: Rows, sh: Hash, height: int, t: nat)
    requires UniqueTxids(chain) && Ordered(chain, start) && rows == Rebuild(chain, start, |chain|)
    requires TouchesAt(chain, start, |chain|, sh, height, t)
    ensures exists x {:trigger x in ConfirmedItems(rows, sh)} :: x in ConfirmedItems(rows, sh) && x.height == height
  {
    var items, places := ConfirmedItems(rows, sh), Sorted(KeysOf(rows.history, sh), sh);
    HistoryInChainOrder(chain, start, sh, rows);
    var k :| k in places && k.height == height && k.txIndex == t;
    var i :| 0 <= i < |places| && places[i] == k;
    assert StandsFor(chain, start, sh, places[i], items[i]);
    assert items[i] in items;
  }

  lemma {:induction false} UntouchedKeys(chain: seq<Entry>, start: int, n: nat, before: Rows, rows: Rows, sh: Hash)
    requires UniqueTxids(chain) && Ordered(chain, start) && n <= |chain|
    requires before == Rebuild(chain, start, n) && rows == Rebuild(chain, start, |chain|) && !TouchedFrom(chain, start, n, sh)
    ensures KeysOf(before.history, sh) == KeysOf(rows.history, sh)
    ensures forall k {:trigger k in KeysOf(rows.history, sh)} :: k in KeysOf(rows.history, sh) ==> Resolved(before, k) == Resolved(rows, k)
  {
    forall k: HistoryKey | k.scripthash == sh
      ensures k in before.history <==> k in rows.history
      ensures k in rows.history ==> Resolved(before, k) == Resolved(rows, k)
    {
      UntouchedKey(chain, start, n, before, rows, k);
    }
  }

  lemma {:induction false} UntouchedKey(chain: seq<Entry>, start: int, n: nat, before: Rows, rows: Rows, k: HistoryKey)
    requires UniqueTxids(chain) && Ordered(chain, start) && n <= |chain|
    requires before == Rebuild(chain, start, n) && rows == Rebuild(chain, start, |chain|) && !TouchedFrom(chain, start, n, k.scripthash)
    ensures k in before.history <==> k in rows.history
    ensures k in rows.history ==> Resolved(before, k) == Resolved(rows, k)
  {
    if k.height < start + n {
      RowsBelow(chain, start, n, |chain|, before, rows);
      assert AgreeOn(before, rows, k);
    } else {
      NotBelow(chain, start, n, before, k);
      if k in rows.history {
        KeyStands(chain, start, k.scripthash, rows, k);
      }
    }
  }

  lemma {:induction false} NotBelow(chain: seq<Entry>, start: int, n: nat, before: Rows, k: HistoryKey)
    requires UniqueTxids(chain) && n <= |chain| && before == Rebuild(chain, start, n) && k.height >= start + n
    ensures k !in before.history
  {
    KnownSettled(chain, start, n, before, ChainTxids(chain, n));
  }

  /** Entries n and up leave the confirmed history of sh alone exactly when none of them touches it. */
  lemma {:induction false} HistoryUnchangedWhen(chain: seq<Entry>, start: int, n: nat, before: Rows, rows: Rows, sh: Hash)
    requires UniqueTxids(chain) && Ordered(chain, start) && n <= |chain|
    requires before == Rebuild(chain, start, n) && rows == Rebuild(chain, start, |chain|)
    ensures ConfirmedItems(before, sh) == ConfirmedItems(rows, sh) <==> !TouchedFrom(chain, start, n, sh)
  {
    if TouchedFrom(chain, start, n, sh) {
      var height, t :| height >= start + n && TouchesAt(chain, start, |chain|, sh, height, t);
      TouchIsListed(chain, start, rows, sh, height, t);
      var x :| x in ConfirmedItems(rows, sh) && x.height == height;
      if x in ConfirmedItems(before, sh) {
        ItemsLieBelow(chain, start, n, before, sh, x);
      }
    } else {
      UntouchedKeys(chain, start, n, before, rows, sh);
      var keys := Sorted(KeysOf(rows.history, sh), sh);
      SortedExact(KeysOf(rows.history, sh), sh);
      ItemsSame(before, rows, keys);
    }
  }

  /** A reorganisation reports nothing: rolling back to n blocks and clearing the overlay leaves the cache right if and only
      if no clean entry is touched by the blocks that go, and none had pending transactions. */
  lemma {:induction false} RollbackIsUnreported(c: Cache, chain: seq<Entry>, start: int, n: nat, cut: Rows, rows: Rows, ov: OverlayView)
    requires UniqueTxids(chain) && Ordered(chain, start) && n <= |chain|
    requires cut == Rebuild(chain, start, n) && rows == Rebuild(chain, start, |chain|) && Right(c, rows, ov)
    ensures Right(c, cut, EMPTY_OVERLAY) <==>
            forall sh {:trigger c.Clean(sh)} :: c.Clean(sh) ==>
              !TouchedFrom(chain, start, n, sh) && Filed(ov, sh) <= TxidsOf(ConfirmedItems(rows, sh))
  {
    forall sh ensures CleanIsRight(c, cut, EMPTY_OVERLAY, sh) <==>
                      (c.Clean(sh) ==> !TouchedFrom(chain, start, n, sh) && Filed(ov, sh) <= TxidsOf(ConfirmedItems(rows, sh)))
    {
      HistoryUnchangedWhen(chain, start, n, cut, rows, sh);
      assert CleanIsRight(c, rows, ov, sh);
      NothingLeft(Filed(ov, sh), TxidsOf(ConfirmedItems(rows, sh)));
      assert Filed(EMPTY_OVERLAY, sh) - TxidsOf(ConfirmedItems(cut, sh)) == {};
    }
  }

  lemma {:induction false} NothingLeft(a: set<Hash>, b: set<Hash>)
    ensures a - b == {} <==> a <= b
  {
    assert forall t :: t in a ==> t in b || t in a - b;
  }

  /** The first transaction of a block spends nothing. */
  ghost predicate CoinbaseFirst(txs: seq<Tx>) {
    txs != [] ==> forall x :: x in txs[0].ins ==> IsCoinbaseInput(x)
  }

  /** A block that may stand at entry i of a chain. */
  ghost predicate Valid(u: Universe, chain: seq<Entry>, i: nat)
    requires i < |chain|
  {
    var txs := chain[i].block.txs;
    Drawn(u, txs) && SpendsWell(u, chain[..i], txs) && CoinbaseFirst(txs)
  }

  ghost predicate ValidFrom(u: Universe, chain: seq<Entry>, n: nat) {
    forall i {:trigger Valid(u, chain, i)} :: n <= i < |chain| ==> Valid(u, chain, i)
  }

  /** The first n entries of a chain are settled, and those above them are valid. */
  ghost predicate Ahead(u: Universe, chain: seq<Entry>, start: int, n: nat, base: Rows, ov: OverlayView) {
    && UniqueTxids(chain) && n <= |chain| && ValidFrom(u, chain, n)
    && base == Rebuild(chain, start, n) && Settled(u, chain[..n], start, base, ov)
  }

  /** With the two kinds of rows in agreement, a known input is a live output: what a block affects it also touches. */
  lemma {:induction false} AffectedIsTouched(rows: Rows, txs: seq<Tx>, n: nat, sh: Hash)
    requires Agreement(rows) && CoinbaseFirst(txs) && n <= |txs| && sh in AffectedBy(rows, txs, n)
    ensures exists t {:trigger Touched(rows, txs, t)} :: 0 <= t < n && sh in Touched(rows, txs, t)
  {
    if sh in AffectedBy(rows, txs, n - 1) {
      AffectedIsTouched(rows, txs, n - 1, sh);
    } else if sh in AffectedIn(rows, txs[n - 1].ins) {
      var x :| x in txs[n - 1].ins && !IsCoinbaseInput(x) && x.prev in rows.outpoints && rows.outpoints[x.prev] == sh;
      var v := rows.utxos[UtxoKey(sh, x.prev)];
      var spent := UndoOutput(sh, x.prev, v.value, v.height, v.blockHash);
      assert HasInput(txs[n - 1].ins, x.prev);
      SpentExact(rows, txs[n - 1].ins, spent);
      assert sh in Touched(rows, txs, n - 1);
    } else {
      assert sh in Touched(rows, txs, n - 1);
    }
  }

  lemma {:induction false} UntouchedIsUnaffected(chain: seq<Entry>, start: int, n: nat, i: nat, rows: Rows, sh: Hash)
    requires UniqueTxids(chain) && n <= i < |chain| && rows == Rebuild(chain, start, i)
    requires CoinbaseFirst(chain[i].block.txs) && !TouchedFrom(chain, start, n, sh)
    ensures sh !in Affected(rows, chain[i].block.txs)
  {
    var txs := chain[i].block.txs;
    KnownSettled(chain, start, i, rows, ChainTxids(chain, i));
    if sh in Affected(rows, txs) {
      AffectedIsTouched(rows, txs, |txs|, sh);
      var t :| 0 <= t < |txs| && sh in Touched(rows, txs, t);
      assert TouchesAt(chain, start, |chain|, sh, start + i, t);
    }
  }

  lemma {:induction false} EntryIsFresh(chain: seq<Entry>, start: int, i: nat, shorter: seq<Entry>)
    requires UniqueTxids(chain) && i < |chain| && shorter == chain[..i]
    ensures Fresh(chain[i].block.txs, ChainTxids(shorter, |shorter|))
  {
    assert shorter[..i] == chain[..i];
    PrefixOnly(chain, shorter, start, i);
    assert Fresh(chain[i].block.txs, ChainTxids(chain, i));
  }

  /** The state after entry i, from the state before it. */
  lemma {:induction false} EntrySettles(u: Universe, chain: seq<Entry>, start: int, i: nat, rows: Rows, ov: OverlayView,
                                        after: Rows, now: OverlayView)
    requires UniqueTxids(chain) && i < |chain| && Settled(u, chain[..i], start, rows, ov) && Drawn(u, chain[i].block.txs)
    requires after == IndexRows(rows, chain[i].block, start + i, chain[i].order)
    requires now == ConfirmBlock(ov, rows, chain[i].block.txs, |chain[i].block.txs|)
    ensures Settled(u, chain[..i + 1], start, after, now)
  {
    var shorter, e := chain[..i], chain[i];
    assert chain[..i + 1] == shorter + [e];
    EntryIsFresh(chain, start, i, shorter);
    EntryOnTop(u, shorter, start, rows, ov, e);
  }

  lemma {:induction false} EntryOnTop(u: Universe, chain: seq<Entry>, start: int, rows: Rows, ov: OverlayView, e: Entry)
    requires Settled(u, chain, start, rows, ov) && Fresh(e.block.txs, ChainTxids(chain, |chain|)) && Drawn(u, e.block.txs)
    ensures Settled(u, chain + [e], start, IndexRows(rows, e.block, start + |chain|, e.order),
                    ConfirmBlock(ov, rows, e.block.txs, |e.block.txs|))
  {
    AfterSettled(u, World(chain, start, rows, ov, Cache(map[], {})), e);
  }

  /** Entry i keeps what the overlay files under a scripthash it does not affect. */
  lemma {:induction false} EntryKeepsFiled(u: Universe, chain: seq<Entry>, start: int, i: nat, rows: Rows, ov: OverlayView, sh: Hash)
    requires i < |chain| && Settled(u, chain[..i], start, rows, ov) && Valid(u, chain, i)
    requires sh !in Affected(rows, chain[i].block.txs)
    ensures Filed(ConfirmBlock(ov, rows, chain[i].block.txs, |chain[i].block.txs|), sh) == Filed(ov, sh)
  {
    var txs := chain[i].block.txs;
    assert CoversAll(rows, ov, txs) by {
      SettledCovers(u, chain[..i], start, rows, ov, txs);
    }
    FiledAfterBlock(ov, rows, txs, |txs|, sh);
  }

  lemma {:induction false} RebuildStep(chain: seq<Entry>, start: int, i: nat, before: Rows)
    requires i < |chain| && before == Rebuild(chain, start, i)
    ensures Rebuild(chain, start, i + 1) == IndexRows(before, chain[i].block, start + i, chain[i].order)
  {
  }

  lemma {:induction false} OvertakenSettlesMore(u: Universe, chain: seq<Entry>, start: int, n: nat, i: nat, before: Rows, rows: Rows,
                                                ov: OverlayView, was: OverlayView, now: OverlayView)
    requires UniqueTxids(chain) && n <= i < |chain| && Valid(u, chain, i) && Settled(u, chain[..i], start, before, was)
    requires before == Rebuild(chain, start, i) && was == Overtaken(chain, start, n, i, ov)
    requires rows == Rebuild(chain, start, i + 1) && now == Overtaken(chain, start, n, i + 1, ov)
    ensures Settled(u, chain[..i + 1], start, rows, now)
  {
    RebuildStep(chain, start, i, before);
    OvertakenStep(chain, start, n, i + 1, ov, was, before, chain[i].block.txs);
    EntrySettles(u, chain, start, i, before, was, rows, now);
  }

  lemma {:induction false} OvertakenSettles(u: Universe, chain: seq<Entry>, start: int, n: nat, i: nat, base: Rows, rows: Rows,
                                            ov: OverlayView, now: OverlayView)
    requires Ahead(u, chain, start, n, base, ov) && n <= i <= |chain|
    requires rows == Rebuild(chain, start, i) && now == Overtaken(chain, start, n, i, ov)
    ensures Settled(u, chain[..i], start, rows, now)
    decreases i
  {
    if i > n {
      assert Valid(u, chain, i - 1);
      var before, was := Rebuild(chain, start, i - 1), Overtaken(chain, start, n, i - 1, ov);
      OvertakenSettles(u, chain, start, n, i - 1, base, before, ov, was);
      OvertakenSettlesMore(u, chain, start, n, i - 1, before, rows, ov, was, now);
    }
  }

  lemma {:induction false} OvertakenFiledMore(u: Universe, chain: seq<Entry>, start: int, n: nat, i: nat, base: Rows,
                                              ov: OverlayView, was: OverlayView, now: OverlayView, sh: Hash)
    requires Ahead(u, chain, start, n, base, ov) && n <= i < |chain| && !TouchedFrom(chain, start, n, sh)
    requires was == Overtaken(chain, start, n, i, ov) && now == Overtaken(chain, start, n, i + 1, ov)
    ensures Filed(now, sh) == Filed(was, sh)
  {
    var before := Rebuild(chain, start, i);
    OvertakenSettles(u, chain, start, n, i, base, before, ov, was);
    assert Valid(u, chain, i);
    UntouchedIsUnaffected(chain, start, n, i, before, sh);
    EntryKeepsFiled(u, chain, start, i, before, was, sh);
    OvertakenStep(chain, start, n, i + 1, ov, was, before, chain[i].block.txs);
  }

  /** Blocks on top leave what the overlay files under a scripthash they do not touch. */
  lemma {:induction false} OvertakenFiled(u: Universe, chain: seq<Entry>, start: int, n: nat, i: nat, base: Rows,
                                          ov: OverlayView, now: OverlayView, sh: Hash)
    requires Ahead(u, chain, start, n, base, ov) && n <= i <= |chain| && !TouchedFrom(chain, start, n, sh)
    requires now == Overtaken(chain, start, n, i, ov)
    ensures Filed(now, sh) == Filed(ov, sh)
    decreases i
  {
    if i == n {
      assert now == ov;
    } else {
      var k, was := i - 1, Overtaken(chain, start, n, i - 1, ov);
      assert Filed(was, sh) == Filed(ov, sh) by {
        OvertakenFiled(u, chain, start, n, k, base, ov, was, sh);
      }
      assert Filed(now, sh) == Filed(was, sh) by {
        OvertakenFiledMore(u, chain, start, n, k, base, ov, was, now, sh);
      }
    }
  }

  /** Of the blocks indexed on the way to an announced one none is reported: entries n and up, overlay included, leave the
      cache right if and only if they touch no clean entry. */
  lemma {:induction false} CatchUpIsUnreported(u: Universe, c: Cache, chain: seq<Entry>, start: int, n: nat, before: Rows, rows: Rows,
                                               ov: OverlayView, now: OverlayView)
    requires Ahead(u, chain, start, n, before, ov) && Ordered(chain, start) && Right(c, before, ov)
    requires rows == Rebuild(chain, start, |chain|) && now == Overtaken(chain, start, n, |chain|, ov)
    ensures Right(c, rows, now) <==> forall sh {:trigger c.Clean(sh)} :: c.Clean(sh) ==> !TouchedFrom(chain, start, n, sh)
  {
    forall sh ensures CleanIsRight(c, rows, now, sh) <==> (c.Clean(sh) ==> !TouchedFrom(chain, start, n, sh)) {
      HistoryUnchangedWhen(chain, start, n, before, rows, sh);
      assert CleanIsRight(c, before, ov, sh);
      if !TouchedFrom(chain, start, n, sh) {
        OvertakenFiled(u, chain, start, n, |chain|, before, ov, now, sh);
      }
    }
  }

  // ----- every run

  /** The server's world: the chain behind the rows, the overlay and the cache. */
  datatype World = World(chain: seq<Entry>, start: int, rows: Rows, ov: OverlayView, cache: Cache)

  datatype Event =
    | Connected(e: Entry)         // a block is indexed, then its collected scripthashes are marked
    | Changed(op: Operation)      // a mempool change, then its reported scripthashes are marked
    | Asked(sh: Hash)             // a status query

  /** A block of the universe's transactions, new to the chain, that spends what consensus lets it spend. */
  ghost predicate Connects(u: Universe, w: World, e: Entry) {
    && Fresh(e.block.txs, ChainTxids(w.chain, |w.chain|)) && ValidOrder(w.rows, e.block.txs, e.order)
    && Drawn(u, e.block.txs) && SpendsWell(u, w.chain, e.block.txs)
  }

  /** An added transaction is one of the universe's, resolved against the committed rows. */
  ghost predicate Arrives(u: Universe, w: World, op: Operation) {
    op.Add? ==> op.rows == w.rows && TxOf(u, op.tx)
  }

  ghost predicate Happens(u: Universe, w: World, event: Event, w': World) {
    match event
    case Connected(e) =>
      Connects(u, w, e) && w' == After(w, e)
    case Changed(op) =>
      && op != Clear && Arrives(u, w, op) && OverlayStep(w.ov, op, w'.ov)
      && w' == w.(ov := w'.ov, cache := w.cache.Mark(Reported(w.ov, op)))
    case Asked(sh) =>
      w' == if w.cache.Clean(sh) then w else w.(cache := w.cache.Store(sh, StatusOf(w.rows, w.ov, sh)))
  }

  ghost predicate Good(u: Universe, w: World) {
    Settled(u, w.chain, w.start, w.rows, w.ov) && FiledExactly(w.ov) && Right(w.cache, w.rows, w.ov)
  }

  /** Marking what may have changed keeps the cache right. */
  lemma {:induction false} MarkingSuffices(c: Cache, rows: Rows, ov: OverlayView, rows': Rows, ov': OverlayView, marked: set<Hash>)
    requires Right(c, rows, ov)
    requires forall sh :: sh !in marked ==> StatusOf(rows', ov', sh) == StatusOf(rows, ov, sh)
    ensures Right(c.Mark(marked), rows', ov')
  {
    forall sh ensures CleanIsRight(c.Mark(marked), rows', ov', sh) {
      assert CleanIsRight(c, rows, ov, sh);
    }
  }

  lemma {:induction false} StoringSuffices(c: Cache, rows: Rows, ov: OverlayView, sh: Hash)
    requires Right(c, rows, ov)
    ensures Right(c.Store(sh, StatusOf(rows, ov, sh)), rows, ov)
  {
    forall x ensures CleanIsRight(c.Store(sh, StatusOf(rows, ov, sh)), rows, ov, x) {
      assert CleanIsRight(c, rows, ov, x);
    }
  }

  lemma {:induction false} BlockKeepsRight(u: Universe, c: Cache, chain: seq<Entry>, start: int, rows: Rows, ov: OverlayView, e: Entry)
    requires Right(c, rows, ov) && Settled(u, chain, start, rows, ov)
    requires Drawn(u, e.block.txs) && SpendsWell(u, chain, e.block.txs) && ValidOrder(rows, e.block.txs, e.order)
    ensures Right(c.Mark(Affected(rows, e.block.txs)), IndexRows(rows, e.block, start + |chain|, e.order),
                  ConfirmBlock(ov, rows, e.block.txs, |e.block.txs|))
  {
    var after, now := IndexRows(rows, e.block, start + |chain|, e.order), ConfirmBlock(ov, rows, e.block.txs, |e.block.txs|);
    forall sh | sh !in Affected(rows, e.block.txs) ensures StatusOf(after, now, sh) == StatusOf(rows, ov, sh) {
      BlockChangesOnlyAffected(u, chain, start, rows, ov, e, sh);
    }
    MarkingSuffices(c, rows, ov, after, now, Affected(rows, e.block.txs));
  }

  lemma {:induction false} OperationKeepsRight(c: Cache, rows: Rows, was: OverlayView, op: Operation, now: OverlayView)
    requires Right(c, rows, was) && FiledExactly(was) && op != Clear && OverlayStep(was, op, now)
    ensures Right(c.Mark(Reported(was, op)), rows, now)
  {
    forall sh | sh !in Reported(was, op) ensures StatusOf(rows, now, sh) == StatusOf(rows, was, sh) {
      OperationChangesOnlyReported(was, op, now, sh);
    }
    MarkingSuffices(c, rows, was, rows, now, Reported(was, op));
  }

  lemma {:induction false} RowsSpan(chain: seq<Entry>, start: int, rows: Rows)
    requires Replays(chain, start, rows)
    ensures Spanning(rows, start, start + |chain|)
  {
    KnownSettled(chain, start, |chain|, rows, ChainTxids(chain, |chain|));
  }

  lemma {:induction false} ReplaysMore(chain: seq<Entry>, start: int, rows: Rows, e: Entry)
    requires Replays(chain, start, rows) && Fresh(e.block.txs, ChainTxids(chain, |chain|))
    ensures Replays(chain + [e], start, IndexRows(rows, e.block, start + |chain|, e.order))
  {
    RebuildMore(chain, e, start);
    UniqueMore(chain, e);
  }

  /** The world after a block. */
  ghost function After(w: World, e: Entry): World {
    World(w.chain + [e], w.start, IndexRows(w.rows, e.block, w.start + |w.chain|, e.order),
          ConfirmBlock(w.ov, w.rows, e.block.txs, |e.block.txs|), w.cache.Mark(Affected(w.rows, e.block.txs)))
  }

  lemma {:induction false} DrawnMore(u: Universe, chain: seq<Entry>, e: Entry)
    requires ChainDrawn(u, chain) && Drawn(u, e.block.txs)
    ensures ChainDrawn(u, chain + [e])
  {
  }

  lemma {:induction false} AfterSettled(u: Universe, w: World, e: Entry)
    requires Settled(u, w.chain, w.start, w.rows, w.ov) && Fresh(e.block.txs, ChainTxids(w.chain, |w.chain|))
    requires Drawn(u, e.block.txs)
    ensures Settled(u, w.chain + [e], w.start, IndexRows(w.rows, e.block, w.start + |w.chain|, e.order),
                    ConfirmBlock(w.ov, w.rows, e.block.txs, |e.block.txs|))
  {
    ReplaysMore(w.chain, w.start, w.rows, e);
    DrawnMore(u, w.chain, e);
    PendingRight(u, w.rows, e.block, w.start + |w.chain|, |e.block.txs|);
    BlockShrinks(w.ov, w.rows, e.block.txs, |e.block.txs|);
    ShrunkRight(u, w.ov, ConfirmBlock(w.ov, w.rows, e.block.txs, |e.block.txs|));
    AllSettled(u, w.chain + [e], w.start, IndexRows(w.rows, e.block, w.start + |w.chain|, e.order),
               ConfirmBlock(w.ov, w.rows, e.block.txs, |e.block.txs|));
  }

  lemma {:induction false} AllSettled(u: Universe, chain: seq<Entry>, start: int, rows: Rows, ov: OverlayView)
    requires Replays(chain, start, rows) && ChainDrawn(u, chain) && OutpointsRight(u, rows.outpoints) && OverlayRight(u, ov)
    ensures Settled(u, chain, start, rows, ov)
  {
  }

  lemma {:induction false} AfterRight(u: Universe, w: World, e: Entry)
    requires Settled(u, w.chain, w.start, w.rows, w.ov) && Right(w.cache, w.rows, w.ov)
    requires Drawn(u, e.block.txs) && SpendsWell(u, w.chain, e.block.txs) && ValidOrder(w.rows, e.block.txs, e.order)
    ensures Right(After(w, e).cache, After(w, e).rows, After(w, e).ov)
  {
    BlockKeepsRight(u, w.cache, w.chain, w.start, w.rows, w.ov, e);
  }

  lemma {:induction false} ConnectedKeeps(u: Universe, w: World, e: Entry)
    requires Good(u, w) && Connects(u, w, e)
    ensures Good(u, After(w, e))
  {
    AfterParts(u, w, e);
    AllGood(u, After(w, e));
  }

  lemma {:induction false} AfterParts(u: Universe, w: World, e: Entry)
    requires Settled(u, w.chain, w.start, w.rows, w.ov) && FiledExactly(w.ov) && Right(w.cache, w.rows, w.ov) && Connects(u, w, e)
    ensures var w' := After(w, e);
            Settled(u, w'.chain, w'.start, w'.rows, w'.ov) && FiledExactly(w'.ov) && Right(w'.cache, w'.rows, w'.ov)
  {
    AfterSettled(u, w, e);
    BlockFiled(w.ov, w.rows, e.block.txs, |e.block.txs|);
    AfterRight(u, w, e);
  }

  lemma {:induction false} AllGood(u: Universe, w: World)
    requires Settled(u, w.chain, w.start, w.rows, w.ov) && FiledExactly(w.ov) && Right(w.cache, w.rows, w.ov)
    ensures Good(u, w)
  {
  }

  lemma {:induction false} StepRight(u: Universe, w: World, op: Operation, now: OverlayView)
    requires OutpointsRight(u, w.rows.outpoints) && OverlayRight(u, w.ov) && Arrives(u, w, op) && OverlayStep(w.ov, op, now)
    ensures OverlayRight(u, now)
  {
    match op {
      case Add(rows, tx) => if !Refused(w.ov, tx) { AddedRight(u, w.ov, rows, tx); }
      case Remove(txid) => ShrunkRight(u, w.ov, now);
      case Reconcile(valid) => ShrunkRight(u, w.ov, now);
      case Clear =>
    }
  }

  lemma {:induction false} ChangedKeeps(u: Universe, w: World, op: Operation, w': World)
    requires Good(u, w) && Happens(u, w, Changed(op), w')
    ensures Good(u, w')
  {
    StepRight(u, w, op, w'.ov);
    StepFiled(w.ov, op, w'.ov);
    OperationKeepsRight(w.cache, w.rows, w.ov, op, w'.ov);
  }

  lemma {:induction false} EventKeeps(u: Universe, w: World, event: Event, w': World)
    requires Good(u, w) && Happens(u, w, event, w')
    ensures Good(u, w')
  {
    match event {
      case Connected(e) => ConnectedKeeps(u, w, e);
      case Changed(op) => ChangedKeeps(u, w, op, w');
      case Asked(sh) => StoringSuffices(w.cache, w.rows, w.ov, sh);
    }
  }

  /** A run over the transactions of a universe, from an empty store, overlay and cache. */
  ghost predicate IsHistory(u: Universe, worlds: seq<World>, events: seq<Event>) {
    && |worlds| == |events| + 1
    && (exists start :: worlds[0] == World([], start, EMPTY_ROWS, EMPTY_OVERLAY, Cache(map[], {})))
    && forall i {:trigger events[i]} :: 0 <= i < |events| ==> Happens(u, worlds[i], events[i], worlds[i + 1])
  }

  /** In every run, a clean cached status is what recomputing it would give. */
  lemma {:induction false} CacheAlwaysRight(u: Universe, worlds: seq<World>, events: seq<Event>, i: nat)
    requires IsHistory(u, worlds, events) && i < |worlds|
    ensures Good(u, worlds[i])
  {
    if i == 0 {
      assert forall sh :: CleanIsRight(Cache(map[], {}), worlds[0].rows, EMPTY_OVERLAY, sh);
    } else {
      CacheAlwaysRight(u, worlds, events, i - 1);
      EventKeeps(u, worlds[i - 1], events[i - 1], worlds[i]);
    }
  }
}
