/** Whole runs of the indexer: blocks on top, rollbacks, pruning, in any sequence. */
module Runs {
  import opened Types
  import opened Store
  import opened Indexing
  import opened Replay
  import opened HistoryRows
  import opened TxStore
  import opened Indexer
  import opened ChainSync

  datatype Step =
    | Index(e: Entry)      // a block on top of the tip
    | Rollback(target: int)
    | Prune

  /** A store with the chain it has indexed; `high` is the highest tip at which pruning has run. */
  datatype Machine = Machine(db: Db, chain: seq<Entry>, start: int, high: int) {
    function Tip(): int { start + |chain| - 1 }
  }

  /** One step, or None where it cannot be taken. */
  ghost function Performed(m: Machine, step: Step, depth: nat): Option<Machine> {
    match step
    case Index(e) =>
      if Fresh(e.block.txs, ChainTxids(m.chain, |m.chain|)) && ValidOrder(m.db.rows, e.block.txs, e.order)
      then Some(m.(db := IndexDb(m.db, e.block, m.Tip() + 1, e.order), chain := m.chain + [e]))
      else None
    case Rollback(t) =>
      if t < m.start - 1 || t > m.Tip() then None else
      var after := RolledBack(m.db, m.chain, m.start, t + 1 - m.start);
      if after == None then None else Some(m.(db := after.value, chain := m.chain[..t + 1 - m.start]))
    case Prune =>
      if m.Tip() <= depth then Some(m)
      else Some(m.(db := PruneDb(m.db, m.Tip() - depth), high := if m.Tip() > m.high then m.Tip() else m.high))
  }

  ghost function Run(m: Machine, steps: seq<Step>, depth: nat): Option<Machine> {
    if steps == [] then Some(m) else
    var before := Run(m, steps[..|steps| - 1], depth);
    if before == None then None else Performed(before.value, steps[|steps| - 1], depth)
  }

  function Low(start: int, high: int, depth: nat): int {
    if high - depth > start then high - depth else start
  }

  /** The rows replay the current chain, and undo records are there from `high - depth` (or the start) to the tip. */
  ghost predicate InStepAt(m: Machine, depth: nat) {
    && Synced(m.db, m.chain, m.start, Low(m.start, m.high, depth))
    && Ordered(m.chain, m.start)
  }

  // ----- each step

  lemma {:induction false} TipBack(db: Db, chain: seq<Entry>, shorter: seq<Entry>, start: int, low: int, k: UndoKey)
    requires Synced(db, chain, start, low) && |chain| > 0 && shorter == chain[..|chain| - 1]
    requires k == UndoKey(start + |chain| - 1, chain[|chain| - 1].block.header.hash)
    ensures k in db.undos <==> low <= start + |chain| - 1
    ensures k in db.undos ==> Synced(RollbackDb(db, k.height, k.blockHash), shorter, start, low)
  {
    TipUndo(db.undos, chain, start, low, |chain| - 1);
    if k in db.undos {
      RollbackKeepsSynced(db, RollbackDb(db, k.height, k.blockHash), chain, shorter, start, low, |chain| - 1, k);
    }
  }

  /** A rollback goes through exactly when it does not pass the lowest undo record. */
  lemma {:induction false} RollbackReaches(db: Db, chain: seq<Entry>, start: int, low: int, n: nat)
    requires Synced(db, chain, start, low) && n <= |chain|
    ensures RolledBack(db, chain, start, n).Some? <==> n == |chain| || low <= start + n
    ensures RolledBack(db, chain, start, n).Some? ==> Synced(RolledBack(db, chain, start, n).value, chain[..n], start, low)
    decreases |chain|
  {
    if n == |chain| {
      assert chain[..n] == chain;
    } else {
      var last := |chain| - 1;
      var k := UndoKey(start + last, chain[last].block.header.hash);
      TipBack(db, chain, chain[..last], start, low, k);
      if k in db.undos {
        var after := RollbackDb(db, k.height, k.blockHash);
        RollbackReaches(after, chain[..last], start, low, n);
        assert chain[..last][..n] == chain[..n];
      }
    }
  }

  lemma {:induction false} RollbackReachesWhen(db: Db, chain: seq<Entry>, start: int, low: int, n: nat)
    requires Synced(db, chain, start, low) && n <= |chain|
    ensures RolledBack(db, chain, start, n).Some? <==> n == |chain| || low <= start + n
  {
    RollbackReaches(db, chain, start, low, n);
  }

  lemma {:induction false} IndexStep(m: Machine, e: Entry, depth: nat, m': Machine)
    requires InStepAt(m, depth) && Performed(m, Index(e), depth) == Some(m')
    ensures InStepAt(m', depth)
  {
    IndexKeepsSynced(m.db, m'.db, m.chain, m'.chain, m.start, Low(m.start, m.high, depth), e);
    IndexOrders(m, e, m');
  }

  lemma {:induction false} IndexOrders(m: Machine, e: Entry, m': Machine)
    requires m.db.rows == Rebuild(m.chain, m.start, |m.chain|) && Ordered(m.chain, m.start)
    requires ValidOrder(m.db.rows, e.block.txs, e.order) && m'.chain == m.chain + [e] && m'.start == m.start
    ensures Ordered(m'.chain, m'.start)
  {
    OrderedMore(m.chain, m.start, e);
  }

  lemma {:induction false} PruneStep(m: Machine, depth: nat)
    requires InStepAt(m, depth) && m.Tip() > depth
    ensures InStepAt(m.(db := PruneDb(m.db, m.Tip() - depth), high := if m.Tip() > m.high then m.Tip() else m.high), depth)
  {
    PruneKeepsSynced(m.db, m.chain, m.start, Low(m.start, m.high, depth), m.Tip() - depth);
  }

  lemma {:induction false} RollbackKeeps(m: Machine, t: int, depth: nat)
    requires InStepAt(m, depth) && Performed(m, Rollback(t), depth).Some?
    ensures InStepAt(Performed(m, Rollback(t), depth).value, depth)
  {
    var n := t + 1 - m.start;
    RollbackReaches(m.db, m.chain, m.start, Low(m.start, m.high, depth), n);
    OrderedLess(m.chain, m.start, n);
  }

  lemma {:induction false} StepKeeps(m: Machine, step: Step, depth: nat)
    requires InStepAt(m, depth)
    ensures Performed(m, step, depth).Some? ==> InStepAt(Performed(m, step, depth).value, depth)
  {
    if Performed(m, step, depth).Some? {
      match step {
        case Index(e) => IndexStep(m, e, depth, Performed(m, step, depth).value);
        case Rollback(t) => RollbackKeeps(m, t, depth);
        case Prune => if m.Tip() > depth { PruneStep(m, depth); }
      }
    }
  }

  // ----- every run

  /** Over every run the rows are a replay of the current chain, so an orphaned branch leaves no trace in them. */
  lemma {:induction false} RunKeeps(m: Machine, steps: seq<Step>, depth: nat)
    requires InStepAt(m, depth)
    ensures Run(m, steps, depth).Some? ==> InStepAt(Run(m, steps, depth).value, depth)
  {
    if steps != [] {
      RunKeeps(m, steps[..|steps| - 1], depth);
      var before := Run(m, steps[..|steps| - 1], depth);
      if before.Some? {
        StepKeeps(before.value, steps[|steps| - 1], depth);
      }
    }
  }

  /** A freshly anchored store, where a run begins. */
  ghost predicate FreshlyAnchored(m: Machine) {
    m.db.rows == EMPTY_ROWS && m.db.undos == map[] && m.chain == [] && m.start >= 1 && m.high == 0
  }

  lemma {:induction false} FreshInStep(m: Machine, depth: nat)
    requires FreshlyAnchored(m)
    ensures InStepAt(m, depth)
  {
    assert Synced(m.db, [], m.start, m.start);
  }

  /** Every block whose undo record pruning must have spared can be rolled back, including any reorganisation that is not too deep. */
  lemma {:induction false} DepthIsEnough(m0: Machine, steps: seq<Step>, depth: nat, m: Machine, t: int)
    requires FreshlyAnchored(m0) && Run(m0, steps, depth) == Some(m) && m.start - 1 <= t <= m.Tip()
    ensures m.start >= 1 && (Performed(m, Rollback(t), depth).Some? <==> t == m.Tip() || m.high - depth - 1 <= t)
    ensures m.Tip() >= m.high && m.Tip() - t <= depth ==> Performed(m, Rollback(t), depth).Some?
  {
    FreshInStep(m0, depth);
    RunKeeps(m0, steps, depth);
    RunStart(m0, steps, depth);
    RollbackTaken(m, t, depth);
  }

  lemma {:induction false} RollbackTaken(m: Machine, t: int, depth: nat)
    requires InStepAt(m, depth) && m.start - 1 <= t <= m.Tip()
    ensures Performed(m, Rollback(t), depth).Some? <==> t == m.Tip() || m.high - depth - 1 <= t
  {
    RollbackReachesWhen(m.db, m.chain, m.start, Low(m.start, m.high, depth), t + 1 - m.start);
  }

  lemma {:induction false} RunStart(m: Machine, steps: seq<Step>, depth: nat)
    ensures Run(m, steps, depth).Some? ==> Run(m, steps, depth).value.start == m.start
  {
    if steps != [] {
      RunStart(m, steps[..|steps| - 1], depth);
    }
  }

  /** At the end of every run, the UTXO rows are the outputs of the current chain that no later block spends. */
  lemma {:induction false} RunUtxos(m0: Machine, steps: seq<Step>, depth: nat, m: Machine, k: UtxoKey, v: UtxoValue)
    requires FreshlyAnchored(m0) && Run(m0, steps, depth) == Some(m)
    ensures Holds(m.db.rows.utxos, k, v) <==> Live(m.chain, m.start, |m.chain|, k, v)
  {
    FreshInStep(m0, depth);
    RunKeeps(m0, steps, depth);
    UtxoRowsExact(m.chain, m.start, |m.chain|, k, v);
  }

  /** And every transaction of the current chain is returned byte for byte, whatever blocks were orphaned on the way. */
  lemma {:induction false} RunTxFound(m0: Machine, steps: seq<Step>, depth: nat, m: Machine, i: nat, t: nat)
    requires FreshlyAnchored(m0) && Run(m0, steps, depth) == Some(m)
    requires i < |m.chain| && t < |m.chain[i].block.txs| && |Blob(m.chain[i].block.txs, t + 1)| < U32
    ensures TxFromDb(m.db, m.chain[i].block.txs[t].txid) == Found(m.chain[i].block.txs[t].raw, m.start + i)
  {
    FreshInStep(m0, depth);
    RunKeeps(m0, steps, depth);
    SyncedTxFound(m.db, m.chain, m.start, Low(m.start, m.high, depth), i, t);
  }

  /** Two runs that end on the same blocks hold the same rows but for the numbers of history rows, whatever they went through. */
  lemma {:induction false} OnlyTheChainMatters(m0: Machine, steps: seq<Step>, m: Machine, n0: Machine, others: seq<Step>, n: Machine,
                                               depth: nat, sh: Hash, height: int, t: nat)
    requires FreshlyAnchored(m0) && FreshlyAnchored(n0) && m0.start == n0.start
    requires Run(m0, steps, depth) == Some(m) && Run(n0, others, depth) == Some(n) && SameBlocks(m.chain, n.chain)
    ensures SameButHistory(m.db.rows, n.db.rows)
    ensures Listed(m.db.rows.history, sh, height, t) <==> Listed(n.db.rows.history, sh, height, t)
  {
    FreshInStep(m0, depth);
    FreshInStep(n0, depth);
    RunKeeps(m0, steps, depth);
    RunKeeps(n0, others, depth);
    RunStart(m0, steps, depth);
    RunStart(n0, others, depth);
    NumberingIsAllThatVaries(m.chain, n.chain, m.start, sh, height, t);
  }

  // ----- what is served for any transaction id

  /** The step that a run took last, if it indexed a block, with its height. */
  ghost function LastIndexed(m: Machine, steps: seq<Step>, depth: nat): Option<(int, seq<Tx>)>
    requires steps != []
  {
    var before, last := Run(m, steps[..|steps| - 1], depth), steps[|steps| - 1];
    if before.Some? && last.Index? then Some((before.value.Tip() + 1, last.e.block.txs)) else None
  }

  /** The block that a run indexed last at a height, orphaned or not. */
  ghost function LastAt(m: Machine, steps: seq<Step>, depth: nat, height: int): Option<seq<Tx>> {
    if steps == [] then None else
    var last := LastIndexed(m, steps, depth);
    if last.Some? && last.value.0 == height then Some(last.value.1) else LastAt(m, steps[..|steps| - 1], depth, height)
  }

  /** Where a run last indexed a transaction id, on a block orphaned since or not. */
  ghost function LastPlace(m: Machine, steps: seq<Step>, depth: nat, txid: Hash): Option<TxPos> {
    if steps == [] then None else
    var last := LastIndexed(m, steps, depth);
    var own := if last.Some? then PutPositions(map[], last.value.1, last.value.0, |last.value.1|) else map[];
    if txid in own then Some(own[txid]) else LastPlace(m, steps[..|steps| - 1], depth, txid)
  }

  /** The raw transaction rows of a height, and the position of an id. */
  ghost predicate Serves(db: Db, height: int, txid: Hash, at: Option<seq<Tx>>, place: Option<TxPos>) {
    && (if at.Some? then HoldsBlock(db, height, at.value) else height !in db.blobs && height !in db.offsets)
    && (if place.Some? then txid in db.txPos && db.txPos[txid] == place.value else txid !in db.txPos)
  }

  lemma {:induction false} IndexServes(db: Db, b: Block, order: Order, h: int, height: int, txid: Hash, at: Option<seq<Tx>>,
                                       place: Option<TxPos>)
    requires Serves(db, height, txid, at, place)
    ensures var own := PutPositions(map[], b.txs, h, |b.txs|);
            Serves(IndexDb(db, b, h, order), height, txid, if h == height then Some(b.txs) else at,
                   if txid in own then Some(own[txid]) else place)
  {
    PutPositionsOver(db.txPos, b.txs, h, |b.txs|, txid);
  }

  /** A place lies in a block that was indexed. */
  lemma {:induction false} PlaceHasBlock(m: Machine, steps: seq<Step>, depth: nat, txid: Hash)
    ensures var place := LastPlace(m, steps, depth, txid);
            place.Some? ==> LastAt(m, steps, depth, place.value.height).Some?
  {
    if steps != [] {
      PlaceHasBlock(m, steps[..|steps| - 1], depth, txid);
      var last := LastIndexed(m, steps, depth);
      if last.Some? {
        PutPositionsOver(map[], last.value.1, last.value.0, |last.value.1|, txid);
      }
    }
  }

  lemma {:induction false} RolledBackKeepsTxs(db: Db, chain: seq<Entry>, start: int, n: nat)
    ensures var after := RolledBack(db, chain, start, n);
            after.Some? ==> after.value.txPos == db.txPos && after.value.blobs == db.blobs && after.value.offsets == db.offsets
    decreases |chain|
  {
    if |chain| > n {
      var last := |chain| - 1;
      var k := UndoKey(start + last, chain[last].block.header.hash);
      if k in db.undos {
        RolledBackKeepsTxs(RollbackDb(db, k.height, k.blockHash), chain[..last], start, n);
      }
    }
  }

  /** Only indexing writes these rows. */
  lemma {:induction false} StepKeepsTxs(m: Machine, step: Step, depth: nat)
    ensures var after := Performed(m, step, depth);
            after.Some? && !step.Index? ==>
              after.value.db.txPos == m.db.txPos && after.value.db.blobs == m.db.blobs && after.value.db.offsets == m.db.offsets
  {
    match step {
      case Index(e) =>
      case Rollback(t) =>
        if m.start - 1 <= t <= m.Tip() {
          RolledBackKeepsTxs(m.db, m.chain, m.start, t + 1 - m.start);
        }
      case Prune =>
    }
  }

  lemma {:induction false} IndexKeepsLast(m0: Machine, steps: seq<Step>, depth: nat, init: seq<Step>, before: Machine, m: Machine, e: Entry,
                                          height: int, txid: Hash)
    requires steps != [] && init == steps[..|steps| - 1] && Run(m0, init, depth) == Some(before)
    requires steps[|steps| - 1] == Index(e) && Performed(before, Index(e), depth) == Some(m)
    requires Serves(before.db, height, txid, LastAt(m0, init, depth, height), LastPlace(m0, init, depth, txid))
    ensures Serves(m.db, height, txid, LastAt(m0, steps, depth, height), LastPlace(m0, steps, depth, txid))
  {
    IndexServes(before.db, e.block, e.order, before.Tip() + 1, height, txid,
                LastAt(m0, init, depth, height), LastPlace(m0, init, depth, txid));
  }

  lemma {:induction false} OtherKeepsLast(m0: Machine, steps: seq<Step>, depth: nat, init: seq<Step>, before: Machine, m: Machine, step: Step,
                                          height: int, txid: Hash)
    requires steps != [] && init == steps[..|steps| - 1] && Run(m0, init, depth) == Some(before)
    requires steps[|steps| - 1] == step && !step.Index? && Performed(before, step, depth) == Some(m)
    requires Serves(before.db, height, txid, LastAt(m0, init, depth, height), LastPlace(m0, init, depth, txid))
    ensures Serves(m.db, height, txid, LastAt(m0, steps, depth, height), LastPlace(m0, steps, depth, txid))
  {
    StepKeepsTxs(before, step, depth);
    ServesSame(before.db, m.db, height, txid, LastAt(m0, init, depth, height), LastPlace(m0, init, depth, txid));
  }

  lemma {:induction false} RunKeepsLast(m0: Machine, steps: seq<Step>, depth: nat, m: Machine, height: int, txid: Hash)
    requires m0.db.txPos == map[] && m0.db.blobs == map[] && m0.db.offsets == map[] && Run(m0, steps, depth) == Some(m)
    ensures Serves(m.db, height, txid, LastAt(m0, steps, depth, height), LastPlace(m0, steps, depth, txid))
  {
    if steps != [] {
      var init, step := steps[..|steps| - 1], steps[|steps| - 1];
      var before := Run(m0, init, depth).value;
      RunKeepsLast(m0, init, depth, before, height, txid);
      if step.Index? {
        IndexKeepsLast(m0, steps, depth, init, before, m, step.e, height, txid);
      } else {
        OtherKeepsLast(m0, steps, depth, init, before, m, step, height, txid);
      }
    }
  }

  lemma {:induction false} ServesSame(db: Db, after: Db, height: int, txid: Hash, at: Option<seq<Tx>>, place: Option<TxPos>)
    requires Serves(db, height, txid, at, place)
    requires after.txPos == db.txPos && after.blobs == db.blobs && after.offsets == db.offsets
    ensures Serves(after, height, txid, at, place)
  {
  }

  /** After every run, an id is answered with what lies at the place where it was last indexed in the block last indexed at
      that height: with its own bytes if that is its own block, with another's or an error if a new block took its height. */
  lemma {:induction false} RunServes(m0: Machine, steps: seq<Step>, depth: nat, m: Machine, txid: Hash)
    requires m0.db.txPos == map[] && m0.db.blobs == map[] && m0.db.offsets == map[] && Run(m0, steps, depth) == Some(m)
    requires forall h {:trigger LastAt(m0, steps, depth, h)} ::
               LastAt(m0, steps, depth, h).Some? ==> var txs := LastAt(m0, steps, depth, h).value; |Blob(txs, |txs|)| < U32
    ensures TxFromDb(m.db, txid) ==
            match LastPlace(m0, steps, depth, txid)
            case None => NotIndexed
            case Some(pos) =>
              match LastAt(m0, steps, depth, pos.height)
              case None => Broken
              case Some(txs) => if pos.txIndex < |txs| then Found(txs[pos.txIndex].raw, pos.height) else Broken
  {
    var place := LastPlace(m0, steps, depth, txid);
    RunKeepsLast(m0, steps, depth, m, if place.Some? then place.value.height else 0, txid);
    PlaceHasBlock(m0, steps, depth, txid);
    if place.Some? {
      var txs := LastAt(m0, steps, depth, place.value.height).value;
      if place.value.txIndex < |txs| {
        BlobSlice(txs, |txs|, place.value.txIndex);
      }
      ServedByPosition(m.db, txid, txs, place.value.height, place.value.txIndex);
    }
  }
}
