/** Start-up check of the indexed range: every height must have its header, and missing blocks are fetched again. */
module Gaps {
  import opened Types
  import opened Store
  import opened Indexing
  import opened Replay
  import opened TxStore
  import opened Indexer
  import opened Reorg
  import opened Manager

  /** A stored header of the right length. */
  predicate HasHeader(rows: Rows, height: int) {
    height in rows.headers && |rows.headers[height].raw| == HEADER_LENGTH
  }

  ghost predicate Covered(rows: Rows, first: int, end: int) {
    forall h {:trigger HasHeader(rows, h)} :: first <= h < end ==> HasHeader(rows, h)
  }

  lemma {:induction false} CoveredMeans(rows: Rows, first: int, end: int)
    requires Covered(rows, first, end)
    ensures forall h :: first <= h < end ==> h in rows.headers && |rows.headers[h].raw| == 80
  {
    forall h | first <= h < end ensures h in rows.headers && |rows.headers[h].raw| == 80 {
      assert HasHeader(rows, h);
    }
  }

  /** Headers may be added or replaced, never lost. */
  ghost predicate NoneLost(before: Rows, after: Rows) {
    forall h {:trigger HasHeader(after, h)} :: HasHeader(before, h) ==> HasHeader(after, h)
  }

  /** The rows of a height are those of Core's block there: header, txid list, blob, offsets and an undo record. */
  ghost predicate HoldsCores(db: Db, core: Core, h: int) {
    && core.Has(h) && h in db.rows.headers && db.rows.headers[h] == core.blocks[h].header
    && h in db.rows.txids && db.rows.txids[h] == Txids(core.blocks[h].txs)
    && HoldsBlock(db, h, core.blocks[h].txs) && UndoKey(h, core.blocks[h].header.hash) in db.undos
  }

  /** Two stores have the same header, txid list, blob and offsets at a height. */
  ghost predicate SameAt(was: Db, now: Db, h: int) {
    && (h in was.rows.headers <==> h in now.rows.headers) && (h in now.rows.headers ==> now.rows.headers[h] == was.rows.headers[h])
    && (h in was.rows.txids <==> h in now.rows.txids) && (h in now.rows.txids ==> now.rows.txids[h] == was.rows.txids[h])
    && (h in was.blobs <==> h in now.blobs) && (h in now.blobs ==> now.blobs[h] == was.blobs[h])
    && (h in was.offsets <==> h in now.offsets) && (h in now.offsets ==> now.offsets[h] == was.offsets[h])
  }

  /** At every height there is what there was, or Core's block; outside the range nothing has changed. */
  ghost predicate OnlyCores(was: Db, now: Db, core: Core, first: int, end: int) {
    && (forall h {:trigger SameAt(was, now, h)} {:trigger HoldsCores(now, core, h)} :: SameAt(was, now, h) || HoldsCores(now, core, h))
    && (forall h {:trigger SameAt(was, now, h)} :: h < first || h >= end ==> SameAt(was, now, h))
    && (forall h {:trigger HoldsCores(now, core, h)} :: HoldsCores(was, core, h) ==> HoldsCores(now, core, h))
  }

  /** Core's block is at every height of the range. */
  ghost predicate AllCores(db: Db, core: Core, first: int, end: int) {
    forall h {:trigger HoldsCores(db, core, h)} :: first <= h < end ==> HoldsCores(db, core, h)
  }

  /** Core's block is at every height of the range whose header was missing. */
  ghost predicate Filled(was: Db, now: Db, core: Core, first: int, end: int) {
    forall h {:trigger HoldsCores(now, core, h)} :: first <= h < end && !HasHeader(was.rows, h) ==> HoldsCores(now, core, h)
  }

  lemma {:induction false} IndexOneCores(was: Db, now: Db, core: Core, h: int, order: Order)
    requires core.Has(h) && now == IndexDb(was, core.blocks[h], h, order)
    ensures HoldsCores(now, core, h) && OnlyCores(was, now, core, h, h + 1)
  {
    IndexAtHeight(was, now, core.blocks[h], h, order);
    forall x ensures x != h ==> SameAt(was, now, x)
      ensures HoldsCores(was, core, x) ==> HoldsCores(now, core, x)
    {
      IndexElsewhere(was, now, core.blocks[h], h, order, x);
    }
  }

  lemma {:induction false} IndexAtHeight(was: Db, now: Db, b: Block, h: int, order: Order)
    requires now == IndexDb(was, b, h, order)
    ensures h in now.rows.headers && now.rows.headers[h] == b.header && h in now.rows.txids && now.rows.txids[h] == Txids(b.txs)
    ensures HoldsBlock(now, h, b.txs) && UndoKey(h, b.header.hash) in now.undos
  {
  }

  lemma {:induction false} IndexElsewhere(was: Db, now: Db, b: Block, h: int, order: Order, x: int)
    requires now == IndexDb(was, b, h, order)
    ensures x != h ==> SameAt(was, now, x)
    ensures forall k {:trigger k in now.undos} :: k in was.undos ==> k in now.undos
  {
  }

  lemma {:induction false} OnlyCoresNone(db: Db, core: Core, first: int, end: int)
    ensures OnlyCores(db, db, core, first, end)
  {
  }

  /** Core's block comes into the height or is left there. */
  lemma {:induction false} OnlyCoresTrans(a: Db, b: Db, c: Db, core: Core, first: int, end: int)
    requires OnlyCores(a, b, core, first, end) && OnlyCores(b, c, core, first, end)
    ensures OnlyCores(a, c, core, first, end)
  {
    forall h ensures SameAt(a, c, h) || HoldsCores(c, core, h) {
      assert SameAt(b, c, h) || HoldsCores(c, core, h);
      assert SameAt(a, b, h) || HoldsCores(b, core, h);
    }
    forall h | h < first || h >= end ensures SameAt(a, c, h) {
      assert SameAt(a, b, h) && SameAt(b, c, h);
    }
    forall h | HoldsCores(a, core, h) ensures HoldsCores(c, core, h) {
      assert HoldsCores(b, core, h);
    }
  }

  /** A height that had no header and has one now has Core's block. */
  lemma {:induction false} OnlyCoresFill(was: Db, now: Db, core: Core, first: int, end: int, lo: int, hi: int)
    requires OnlyCores(was, now, core, first, end) && Covered(now.rows, lo, hi)
    ensures Filled(was, now, core, lo, hi)
  {
    forall h | lo <= h < hi && !HasHeader(was.rows, h) ensures HoldsCores(now, core, h) {
      assert HasHeader(now.rows, h);
      assert SameAt(was, now, h) || HoldsCores(now, core, h);
    }
  }

  lemma {:induction false} OnlyCoresWider(was: Db, now: Db, core: Core, first: int, end: int, lo: int, hi: int)
    requires OnlyCores(was, now, core, first, end) && lo <= first && end <= hi
    ensures OnlyCores(was, now, core, lo, hi)
  {
  }

  lemma {:induction false} OneMoreCores(store: Db, was: Db, now: Db, core: Core, first: int, h: int, end: int, order: Order)
    requires OnlyCores(store, was, core, first, end) && AllCores(was, core, first, h)
    requires first <= h < end && core.Has(h) && now == IndexDb(was, core.blocks[h], h, order)
    ensures OnlyCores(store, now, core, first, end) && AllCores(now, core, first, h + 1)
  {
    IndexOneCores(was, now, core, h, order);
    OnlyCoresWider(was, now, core, h, h + 1, first, end);
    OnlyCoresTrans(store, was, now, core, first, end);
    forall x | first <= x < h + 1 ensures HoldsCores(now, core, x) {
      assert x < h ==> HoldsCores(was, core, x);
    }
  }

  lemma {:induction false} GapCores(store: Db, was: Db, now: Db, core: Core, first: int, end: int, lo: int, hi: int)
    requires OnlyCores(store, was, core, lo, hi) && OnlyCores(was, now, core, first, end) && lo <= first && end <= hi
    ensures OnlyCores(store, now, core, lo, hi)
  {
    OnlyCoresWider(was, now, core, first, end, lo, hi);
    OnlyCoresTrans(store, was, now, core, lo, hi);
  }

  /** Core can serve every block up to a height. */
  ghost predicate CanServe(core: Core, last: int) {
    core.Has(last) && forall h :: 0 <= h <= last ==> |core.blocks[h].header.raw| == HEADER_LENGTH
  }

  ghost predicate Ready(indexer: BlockIndexer)
    reads indexer.mempool, indexer.mempool.cells
  {
    indexer.mempool.Valid() && indexer.mempool.store == indexer.store
  }

  lemma {:induction false} IndexCovers(rows: Rows, b: Block, height: int, order: Order)
    requires |b.header.raw| == HEADER_LENGTH
    ensures var after := IndexRows(rows, b, height, order); NoneLost(rows, after) && HasHeader(after, height)
  {
  }

  lemma {:induction false} NoneLostTrans(a: Rows, b: Rows, c: Rows)
    requires NoneLost(a, b) && NoneLost(b, c)
    ensures NoneLost(a, c)
  {
    forall h | HasHeader(a, h) ensures HasHeader(c, h) {
      assert HasHeader(b, h);
    }
  }

  /** Fetches and indexes every block of a gap, whether or not it is there. */
  method RepairGap(indexer: BlockIndexer, core: Core, first: int, last: int) returns (ok: bool)
    requires Ready(indexer) && first >= 0
    modifies indexer.store, indexer.mempool
    ensures Ready(indexer) && NoneLost(old(indexer.store.db.rows), indexer.store.db.rows)
    ensures ok ==> forall h :: first <= h < last + 1 ==> h in indexer.store.db.rows.headers && |indexer.store.db.rows.headers[h].raw| == 80
    ensures ok ==> Covered(indexer.store.db.rows, first, last + 1) && AllCores(indexer.store.db, core, first, last + 1)
    ensures OnlyCores(old(indexer.store.db), indexer.store.db, core, first, last + 1)
    ensures CanServe(core, last) ==> ok
  {
    ghost var start, store := indexer.store.db.rows, indexer.store.db;
    OnlyCoresNone(store, core, first, last + 1);
    var height := first;
    while height <= last
      invariant first <= height && Ready(indexer)
      invariant NoneLost(start, indexer.store.db.rows) && Covered(indexer.store.db.rows, first, height)
      invariant OnlyCores(store, indexer.store.db, core, first, last + 1) && AllCores(indexer.store.db, core, first, height)
      decreases last - height
    {
      if !core.Has(height) {
        return false;
      }
      ghost var was, before := indexer.store.db.rows, indexer.store.db;
      ghost var order;
      ok, order := indexer.IndexBlock(core.blocks[height], height);
      if !ok {
        return;
      }
      IndexCovers(was, core.blocks[height], height, order);
      NoneLostTrans(start, was, indexer.store.db.rows);
      OneMoreCores(store, before, indexer.store.db, core, first, height, last + 1, order);
      height := height + 1;
    }
    ok := true;
    CoveredMeans(indexer.store.db.rows, first, last + 1);
  }

  /** Looks at every step-th header and repairs what lies between a missing one and the next present one. */
  method SamplePass(indexer: BlockIndexer, core: Core, first: int, tip: int, step: int) returns (ok: bool)
    requires Ready(indexer) && first >= 1 && step >= 1
    modifies indexer.store, indexer.mempool
    ensures Ready(indexer)
    ensures ok && step == 1 ==> Covered(indexer.store.db.rows, first, tip + 1)
    ensures OnlyCores(old(indexer.store.db), indexer.store.db, core, first, tip + 1)
    ensures CanServe(core, tip) ==> ok
  {
    ghost var store := indexer.store.db;
    OnlyCoresNone(store, core, first, tip + 1);
    var gapStart, height := -1, first;
    while height <= tip
      invariant Ready(indexer) && first <= height && (gapStart == -1 || first <= gapStart < height)
      invariant step == 1 ==> height <= tip + 1 || height == first
      invariant step == 1 ==> Covered(indexer.store.db.rows, first, if gapStart == -1 then height else gapStart)
      invariant OnlyCores(store, indexer.store.db, core, first, tip + 1)
      decreases tip - height
    {
      if !HasHeader(indexer.store.db.rows, height) {
        if gapStart == -1 {
          gapStart := height;
        }
      } else if gapStart != -1 {
        ghost var was, before := indexer.store.db.rows, indexer.store.db;
        ok := RepairGap(indexer, core, gapStart, height - 1);
        GapCores(store, before, indexer.store.db, core, gapStart, height, first, tip + 1);
        if !ok {
          return;
        }
        Joins(was, indexer.store.db.rows, first, gapStart, height, step);
        gapStart := -1;
      }
      height := height + step;
    }
    ok := true;
    if gapStart != -1 {
      ghost var before := indexer.store.db;
      ok := RepairGap(indexer, core, gapStart, tip);
      GapCores(store, before, indexer.store.db, core, gapStart, tip + 1, first, tip + 1);
    }
  }

  lemma {:induction false} Joins(was: Rows, now: Rows, first: int, gapStart: int, height: int, step: int)
    requires NoneLost(was, now) && HasHeader(was, height) && Covered(now, gapStart, height)
    requires step == 1 ==> Covered(was, first, gapStart)
    ensures HasHeader(now, height) && (step == 1 ==> Covered(now, first, height + 1))
  {
    if step == 1 {
      forall h | first <= h < height + 1 ensures HasHeader(now, h) {
        assert h < gapStart ==> HasHeader(was, h);
      }
    }
  }

  /** Looks at every header and repairs each gap as it is met. */
  method FullPass(indexer: BlockIndexer, core: Core, first: int, tip: int) returns (ok: bool)
    requires Ready(indexer) && first >= 1
    modifies indexer.store, indexer.mempool
    ensures Ready(indexer)
    ensures ok ==> Covered(indexer.store.db.rows, first, tip + 1)
    ensures OnlyCores(old(indexer.store.db), indexer.store.db, core, first, tip + 1)
    ensures CanServe(core, tip) ==> ok
  {
    ghost var store := indexer.store.db;
    OnlyCoresNone(store, core, first, tip + 1);
    var height := first;
    while height <= tip
      invariant Ready(indexer) && first <= height && (height <= tip + 1 || height == first)
      invariant Covered(indexer.store.db.rows, first, height)
      invariant OnlyCores(store, indexer.store.db, core, first, tip + 1)
      decreases tip - height
    {
      if !HasHeader(indexer.store.db.rows, height) {
        var gapEnd := GapEnd(indexer.store, height, tip);
        ghost var was, before := indexer.store.db.rows, indexer.store.db;
        ok := RepairGap(indexer, core, height, gapEnd);
        GapCores(store, before, indexer.store.db, core, height, gapEnd + 1, first, tip + 1);
        if !ok {
          return;
        }
        assert forall h :: HasHeader(was, h) ==> HasHeader(indexer.store.db.rows, h);
        height := gapEnd;
      }
      height := height + 1;
    }
    ok := true;
  }

  /** The last height of the gap that begins here. */
  method GapEnd(store: Database, height: int, tip: int) returns (end: int)
    requires height <= tip
    ensures height <= end <= tip
    ensures forall h :: height < h <= end ==> !HasHeader(store.db.rows, h)
    ensures end == tip || HasHeader(store.db.rows, end + 1)
  {
    end := height;
    while end < tip
      invariant height <= end <= tip
      invariant forall h :: height < h <= end ==> !HasHeader(store.db.rows, h)
    {
      if HasHeader(store.db.rows, end + 1) {
        break;
      }
      end := end + 1;
    }
  }

  /** Where the indexed range begins: 1 if it has a header, else the bottom of the unbroken run of headers at the tip. */
  ghost predicate IsFirstIndexed(rows: Rows, first: int, tip: int) {
    && 1 <= first <= tip + 1
    && (first == 1 <==> 1 in rows.headers)
    && (first > 1 ==> (forall h :: first <= h <= tip ==> h in rows.headers) && first - 1 !in rows.headers)
  }

  method FindFirstIndexedHeight(store: Database, tip: int) returns (first: int)
    requires tip > 0
    ensures IsFirstIndexed(store.db.rows, first, tip)
  {
    if 1 in store.db.rows.headers {
      return 1;
    }
    first := BottomOfRun(store, tip);
  }

  method BottomOfRun(store: Database, tip: int) returns (first: int)
    requires tip > 0
    ensures 1 <= first <= tip + 1
    ensures forall h :: first <= h <= tip ==> h in store.db.rows.headers
    ensures first > 1 ==> first - 1 !in store.db.rows.headers
  {
    var h := tip;
    while h > 0
      invariant 0 <= h <= tip
      invariant forall x :: h < x <= tip ==> x in store.db.rows.headers
    {
      if h !in store.db.rows.headers {
        return h + 1;
      }
      h := h - 1;
    }
    first := 1;
  }

  function SampleStep(first: int, tip: int): int {
    if tip - first + 1 > 1000 then (tip - first + 1) / 100 else 1
  }

  // ----- a tip that is not Core's

  /** The highest height, no higher than `last`, at which the stored header is that of Core's block. */
  function LastMatch(rows: Rows, core: Core, first: int, last: int): Option<int>
    decreases last - first
  {
    if last < first then None
    else if HasHeader(rows, last) && core.HashAt(last) == Some(rows.headers[last].hash) then Some(last)
    else LastMatch(rows, core, first, last - 1)
  }

  lemma {:induction false} LastMatchHighest(rows: Rows, core: Core, first: int, last: int)
    ensures var m := LastMatch(rows, core, first, last);
            forall h :: (if m.Some? then m.value else first - 1) < h <= last ==>
              !(HasHeader(rows, h) && core.HashAt(h) == Some(rows.headers[h].hash))
    ensures var m := LastMatch(rows, core, first, last);
            m.Some? ==> first <= m.value <= last && HasHeader(rows, m.value) && core.HashAt(m.value) == Some(rows.headers[m.value].hash)
    decreases last - first
  {
    if first <= last && !(HasHeader(rows, last) && core.HashAt(last) == Some(rows.headers[last].hash)) {
      LastMatchHighest(rows, core, first, last - 1);
    }
  }

  method FindLastMatchingHeight(store: Database, core: Core, first: int, last: int) returns (m: Option<int>)
    ensures m == LastMatch(store.db.rows, core, first, last)
  {
    var rows, h := store.db.rows, last;
    while h >= first
      invariant LastMatch(rows, core, first, last) == LastMatch(rows, core, first, h)
      decreases h - first
    {
      if HasHeader(rows, h) && core.HashAt(h) == Some(rows.headers[h].hash) {
        return Some(h);
      }
      h := h - 1;
    }
    m := None;
  }

  /** Where memory goes from a tip that is not Core's: to the last match, or below the first height, or to nothing at all. */
  function MovedTip(rows: Rows, core: Core, first: int, tip: int, startHeight: int): Option<Checkpoint> {
    var m := LastMatch(rows, core, first, tip);
    if m.Some? then Some(Checkpoint(m.value, core.HashAt(m.value), startHeight))
    else if first <= 1 then Some(Checkpoint(0, Some(ZERO_HASH), first))
    else if core.Has(first - 1) then Some(Checkpoint(first - 1, core.HashAt(first - 1), first))
    else None
  }

  /** Moves memory and checkpoint, and undoes no block. */
  method MoveTip(cm: ChainManager, core: Core, first: int) returns (ok: bool)
    modifies cm`currentHeight, cm`currentHash, cm.store
    ensures var to := MovedTip(old(cm.store.db.rows), core, first, old(cm.currentHeight), cm.startHeight);
            && (ok <==> to.Some?)
            && cm.store.db == (if ok then old(cm.store.db).(checkpoint := to.value) else old(cm.store.db))
            && cm.currentHeight == (if ok then to.value.height else old(cm.currentHeight))
            && (if ok then Some(cm.currentHash) == to.value.hash else cm.currentHash == old(cm.currentHash))
  {
    var m := FindLastMatchingHeight(cm.store, core, first, cm.currentHeight);
    LastMatchHighest(cm.store.db.rows, core, first, cm.currentHeight);
    var c;
    if m.Some? {
      c := Checkpoint(m.value, core.HashAt(m.value), cm.startHeight);
    } else if first > 1 {
      if !core.Has(first - 1) {
        return false;
      }
      c := Checkpoint(first - 1, core.HashAt(first - 1), first);
    } else {
      c := Checkpoint(0, Some(ZERO_HASH), first);
    }
    cm.currentHeight, cm.currentHash := c.height, c.hash.value;
    cm.store.SaveCheckpoint(c);
    ok := true;
  }

  lemma {:induction false} TipHeader(rows: Rows, s: Ledger)
    requires rows == Rebuild(s.chain, s.start, |s.chain|)
    ensures s.chain != [] ==> s.Tip() in rows.headers && rows.headers[s.Tip()].hash == s.HashAt(s.Tip())
    ensures forall h :: h in rows.headers ==> s.chain != [] && h <= s.Tip()
  {
    if s.chain != [] {
      HeaderAt(s.chain, s.start, |s.chain|, |s.chain| - 1);
    }
    forall h | h in rows.headers ensures s.chain != [] && h <= s.Tip() {
      HeaderInChain(s.chain, s.start, |s.chain|, h);
    }
  }

  /** The rows alone say where the chain behind them ends, and with which block. */
  lemma {:induction false} RowsGiveTip(rows: Rows, s: Ledger, t: Ledger)
    requires rows == Rebuild(s.chain, s.start, |s.chain|) && rows == Rebuild(t.chain, t.start, |t.chain|)
    requires s.chain != []
    ensures t.Tip() == s.Tip() && t.chain != [] && t.HashAt(t.Tip()) == s.HashAt(s.Tip())
  {
    TipHeader(rows, s);
    TipHeader(rows, t);
  }

  lemma {:induction false} BothReplay(db: Db, c: Checkpoint, s: Ledger, t: Ledger)
    requires InStepWith(db, s) && InStepWith(db.(checkpoint := c), t)
    ensures db.rows == Rebuild(s.chain, s.start, |s.chain|) && db.rows == Rebuild(t.chain, t.start, |t.chain|)
  {
    assert Unfolds(db) && Unfolds(db.(checkpoint := c));
  }

  /** A tip so moved is never in step again: no ledger whatever fits the rows and the new checkpoint. */
  lemma {:induction false} MovedIsOutOfStep(db: Db, s: Ledger, core: Core, first: int, startHeight: int, to: Checkpoint, t: Ledger)
    requires Tracks(db, s) && s.chain != [] && !OnCore(core, s) && MovedTip(db.rows, core, first, s.Tip(), startHeight) == Some(to)
    ensures !Tracks(db.(checkpoint := to), t)
  {
    LastMatchHighest(db.rows, core, first, s.Tip());
    if Tracks(db.(checkpoint := to), t) {
      BothReplay(db, to, s, t);
      RowsGiveTip(db.rows, s, t);
    }
  }

  /** Memory goes to the highest indexed height at which Core agrees, which Core continues; without one, to just below the
      range or, if that begins at 1, to nothing. */
  lemma {:induction false} MovedTipMeans(rows: Rows, core: Core, first: int, tip: int, startHeight: int, to: Checkpoint)
    requires MovedTip(rows, core, first, tip, startHeight) == Some(to)
    ensures var agreed := set h | first <= h <= tip && HasHeader(rows, h) && core.HashAt(h) == Some(rows.headers[h].hash);
            if agreed != {}
            then to.height in agreed && (forall h :: h in agreed ==> h <= to.height) && to.hash == core.HashAt(to.height)
                 && to.startHeight == startHeight
            else if first > 1 then to.height == first - 1 && core.Has(first - 1) && to.hash == core.HashAt(first - 1) && to.startHeight == first
            else to.height == 0 && to.hash == Some(ZERO_HASH) && to.startHeight == first
  {
    LastMatchHighest(rows, core, first, tip);
    var m := LastMatch(rows, core, first, tip);
    var agreed := set h | first <= h <= tip && HasHeader(rows, h) && core.HashAt(h) == Some(rows.headers[h].hash);
    assert m.Some? ==> m.value in agreed;
  }

  // ----- the whole check

  /** Success with memory's tip on Core's chain means that no height of the indexed range is without its header; with another
      tip, memory and checkpoint move down while every row stays. */
  method VerifyAndRepairGaps(cm: ChainManager, core: Core) returns (ok: bool, first: int)
    requires cm.Wired()
    modifies cm, cm.store, cm.mempool
    ensures cm.Wired() && first >= 1 && cm.startHeight == old(cm.startHeight)
    ensures cm.startHeight > 0 ==> first == cm.startHeight
    ensures cm.startHeight <= 0 && old(cm.currentHeight) > 0 ==>
              IsFirstIndexed(old(cm.store.db.rows), first, old(cm.currentHeight))
    ensures old(cm.currentHeight) <= 0 ==> ok && cm.store.db == old(cm.store.db)
    ensures old(cm.currentHeight) > 0 && !core.Has(old(cm.currentHeight)) ==> !ok && cm.store.db == old(cm.store.db)
    ensures old(cm.currentHeight) <= 0 || old(cm.Connected(core)) || !core.Has(old(cm.currentHeight)) ==>
              cm.currentHeight == old(cm.currentHeight) && cm.currentHash == old(cm.currentHash)
    ensures old(cm.currentHeight) > 0 && old(cm.Connected(core)) ==>
              && (ok ==> Covered(cm.store.db.rows, first, cm.currentHeight + 1))
              && (ok ==> forall h :: first <= h < cm.currentHeight + 1 ==>
                    h in cm.store.db.rows.headers && |cm.store.db.rows.headers[h].raw| == 80)
              && (ok ==> Filled(old(cm.store.db), cm.store.db, core, first, cm.currentHeight + 1))
              && OnlyCores(old(cm.store.db), cm.store.db, core, first, cm.currentHeight + 1)
              && (CanServe(core, cm.currentHeight) ==> ok)
    ensures old(cm.currentHeight) > 0 && core.Has(old(cm.currentHeight)) && !old(cm.Connected(core)) ==>
              var to := MovedTip(old(cm.store.db.rows), core, first, old(cm.currentHeight), cm.startHeight);
              && (ok <==> to.Some?)
              && (ok ==> cm.store.db == old(cm.store.db).(checkpoint := to.value))
              && (ok ==> cm.currentHeight == to.value.height && Some(cm.currentHash) == to.value.hash)
  {
    first := if cm.startHeight > 0 then cm.startHeight else 1;
    if cm.currentHeight <= 0 {
      return true, first;
    }
    if cm.startHeight <= 0 {
      first := FindFirstIndexedHeight(cm.store, cm.currentHeight);
    }
    if !core.Has(cm.currentHeight) {
      return false, first;
    }
    if core.blocks[cm.currentHeight].header.hash != cm.currentHash {
      ok := MoveTip(cm, core, first);
      return;
    }
    ok := RepairRange(cm.indexer, core, first, cm.currentHeight);
    if ok {
      CoveredMeans(cm.store.db.rows, first, cm.currentHeight + 1);
    }
  }

  method RepairRange(indexer: BlockIndexer, core: Core, first: int, tip: int) returns (ok: bool)
    requires Ready(indexer) && first >= 1
    modifies indexer.store, indexer.mempool
    ensures Ready(indexer)
    ensures ok ==> Covered(indexer.store.db.rows, first, tip + 1)
    ensures OnlyCores(old(indexer.store.db), indexer.store.db, core, first, tip + 1)
    ensures ok ==> Filled(old(indexer.store.db), indexer.store.db, core, first, tip + 1)
    ensures CanServe(core, tip) ==> ok
  {
    ghost var store := indexer.store.db;
    var step := SampleStep(first, tip);
    ok := SamplePass(indexer, core, first, tip, step);
    if ok && step > 1 {
      ghost var before := indexer.store.db;
      ok := FullPass(indexer, core, first, tip);
      OnlyCoresTrans(store, before, indexer.store.db, core, first, tip + 1);
    }
    if ok {
      OnlyCoresFill(store, indexer.store.db, core, first, tip + 1, first, tip + 1);
    }
  }
}
