/** The chain manager: it connects blocks, catches up with Core and hands reorganisations on. */
module Manager {
  import opened Types
  import opened Store
  import opened Indexing
  import opened Replay
  import opened Overlay
  import opened Mempool
  import opened Indexer
  import opened ChainSync
  import opened Reorg

  // ----- what is assumed of Core

  /** The transaction ids of the blocks from height `from` up to below n. */
  function CoreTxids(blocks: seq<Block>, from: int, n: nat): set<Hash>
    requires n <= |blocks|
  {
    if n == 0 || n <= from then {} else CoreTxids(blocks, from, n - 1) + Elements(Txids(blocks[n - 1].txs))
  }

  /** A best chain: hash-linked, with 80-byte headers and, from the height where indexing starts, no transaction id twice. */
  ghost predicate Sound(core: Core, start: int) {
    && Linked(core)
    && (core.Has(0) ==> core.blocks[0].header.hash != ZERO_HASH)
    && (forall h :: 0 <= h < |core.blocks| ==> |core.blocks[h].header.raw| == HEADER_LENGTH)
    && (forall h {:trigger CoreTxids(core.blocks, start, h)} :: 0 <= h < |core.blocks| && start <= h ==>
          Fresh(core.blocks[h].txs, CoreTxids(core.blocks, start, h)))
  }

  // ----- the ledger against Core

  ghost predicate SameBlock(core: Core, s: Ledger, i: nat)
    requires i < |s.chain|
  {
    core.Has(s.start + i) && s.chain[i].block == core.blocks[s.start + i]
  }

  /** Every indexed block is Core's block at its height. */
  ghost predicate SameAsCore(core: Core, s: Ledger) {
    forall i {:trigger SameBlock(core, s, i)} :: 0 <= i < |s.chain| ==> SameBlock(core, s, i)
  }

  function Grown(s: Ledger, e: Entry): Ledger {
    s.(chain := s.chain + [e])
  }

  lemma {:induction false} GrownTracks(db: Db, after: Db, s: Ledger, e: Entry)
    requires Tracks(db, s) && |e.block.header.raw| == HEADER_LENGTH
    requires Fresh(e.block.txs, ChainTxids(s.chain, |s.chain|)) && ValidOrder(db.rows, e.block.txs, e.order)
    requires after == IndexDb(db, e.block, s.Tip() + 1, e.order)
    ensures Tracks(after, Grown(s, e)) && Grown(s, e).HashAt(s.Tip() + 1) == e.block.header.hash
  {
    assert Unfolds(db);
    IndexKeepsSynced(db, after, s.chain, s.chain + [e], s.start, s.low, e);
    OrderedMore(s.chain, s.start, e);
  }

  lemma {:induction false} TxidsAreCores(core: Core, s: Ledger, n: nat)
    requires SameAsCore(core, s) && s.start >= 1 && n <= |s.chain| && s.start + n <= |core.blocks|
    ensures ChainTxids(s.chain, n) <= CoreTxids(core.blocks, s.start, s.start + n)
  {
    if n > 0 {
      TxidsAreCores(core, s, n - 1);
      assert SameBlock(core, s, n - 1);
    }
  }

  lemma {:induction false} NextIsFresh(core: Core, s: Ledger)
    requires Sound(core, s.start) && SameAsCore(core, s) && s.start >= 1 && core.Has(s.Tip() + 1)
    ensures Fresh(core.blocks[s.Tip() + 1].txs, ChainTxids(s.chain, |s.chain|))
  {
    TxidsAreCores(core, s, |s.chain|);
    assert Fresh(core.blocks[s.Tip() + 1].txs, CoreTxids(core.blocks, s.start, s.Tip() + 1));
  }

  lemma {:induction false} GrownSame(core: Core, s: Ledger, e: Entry)
    requires SameAsCore(core, s) && core.Has(s.Tip() + 1) && e.block == core.blocks[s.Tip() + 1]
    ensures SameAsCore(core, Grown(s, e))
  {
    forall i | 0 <= i < |s.chain| + 1 ensures SameBlock(core, Grown(s, e), i) {
      if i < |s.chain| {
        assert SameBlock(core, s, i);
      }
    }
  }

  /** Agreement with Core at some height means the same blocks up to there. */
  lemma {:induction false} MatchMeansSame(core: Core, s: Ledger, f: int)
    requires Linked(core) && LedgerLinked(s) && Identified(core, s) && s.start >= 1 && Matches(core, s, f)
    ensures SameAsCore(core, s.Cut(f))
  {
    forall i | 0 <= i < |s.Cut(f).chain| ensures SameBlock(core, s.Cut(f), i) {
      AgreeBelow(core, s, f, s.start + i);
    }
  }

  /** After a successful reorganisation the ledger holds Core's blocks up to the fork. */
  lemma {:induction false} LandedSame(core: Core, s: Ledger, db: Db, depth: nat)
    requires Linked(core) && LedgerLinked(s) && Identified(core, s) && s.start >= 1
    requires s.start <= s.low && CheckpointFits(db.checkpoint, s) && !OnCore(core, s) && core.Has(s.Tip())
    requires Reachable(s, depth, Forked(core, s, db, depth))
    ensures var f := Forked(core, s, db, depth);
            && SameAsCore(core, Landed(core, s, f)) && Landed(core, s, f).Tip() == f && core.Has(f)
            && (Landed(core, s, f).chain == [] || Some(Landed(core, s, f).HashAt(f)) == core.HashAt(f))
  {
    var f := Forked(core, s, db, depth);
    ForkInRange(core, s, db.checkpoint, depth);
    ForkBelowHighest(core, s, Boundary(db.checkpoint), depth, s.Tip() - 1);
    if Matches(core, s, f) {
      MatchMeansSame(core, s, f);
    } else {
      assert f == s.start - 1;
    }
  }

  lemma {:induction false} SameIsLinked(core: Core, s: Ledger)
    requires Linked(core) && SameAsCore(core, s) && s.start >= 1
    ensures LedgerLinked(s) && Identified(core, s)
  {
    forall i | 0 <= i < |s.chain| ensures core.Has(s.start + i) && s.chain[i].block == core.blocks[s.start + i] {
      assert SameBlock(core, s, i);
    }
  }

  /** The ledger is hash-linked too, and a hash it shares with Core stands for the same block. */
  ghost predicate Comparable(core: Core, s: Ledger) {
    Sound(core, s.start) && LedgerLinked(s) && Identified(core, s)
  }

  /** A block on top of the ledger's tip: if Core has the tip, the two agree all the way down. */
  lemma {:induction false} OnCoreSame(core: Core, s: Ledger)
    requires Comparable(core, s) && s.start >= 1 && (s.chain == [] || OnCore(core, s))
    ensures SameAsCore(core, s)
  {
    if s.chain != [] {
      assert Matches(core, s, s.Tip());
      MatchMeansSame(core, s, s.Tip());
    }
  }

  lemma {:induction false} StillComparable(core: Core, s: Ledger)
    requires Sound(core, s.start) && SameAsCore(core, s) && s.start >= 1
    ensures Comparable(core, s)
  {
    SameIsLinked(core, s);
  }

  /** Wherever this block connects, its transaction ids are new. */
  ghost predicate NewWhereItConnects(core: Core, s: Ledger, tip: Hash, b: Block) {
    && (b.header.prev == tip ==> Fresh(b.txs, ChainTxids(s.chain, |s.chain|)))
    && (forall h :: 0 <= h < |core.blocks| && core.blocks[h].header.hash == b.header.prev ==>
          Fresh(b.txs, CoreTxids(core.blocks, s.start, h + 1)))
  }

  lemma {:induction false} NewAfterCatchUp(core: Core, s: Ledger, t: Ledger, tip: Hash, b: Block)
    requires NewWhereItConnects(core, s, tip, b) && SameAsCore(core, t) && t.start == s.start >= 1 && core.Has(t.Tip())
    ensures NewWhereItConnects(core, t, core.blocks[t.Tip()].header.hash, b)
  {
    TxidsAreCores(core, t, |t.chain|);
  }

  lemma {:induction false} PrunedKeeps(db: Db, s: Ledger, before: int) returns (t: Ledger)
    requires Tracks(db, s) && before <= s.Tip() + 1
    ensures t == s.(low := if before > s.low then before else s.low) && Tracks(PruneDb(db, before), t)
  {
    assert Unfolds(db);
    t := s.(low := if before > s.low then before else s.low);
    PruneKeepsSynced(db, s.chain, s.start, s.low, before);
  }

  /** An anchored store with no rows follows the empty ledger, whatever transaction rows are left over. */
  lemma {:induction false} AnchoredTracks(db: Db, s: Ledger)
    requires db.rows == EMPTY_ROWS && db.undos == map[]
    requires s.chain == [] && s.low == s.start >= 1 && CheckpointFits(db.checkpoint, s)
    ensures Tracks(db, s)
  {
    assert Synced(db, [], s.start, s.low) && Ordered([], s.start);
  }

  // ----- what the chain manager's operations do

  /** Store, overlay and memory of a chain manager. */
  datatype Node = Node(db: Db, overlay: OverlayView, height: int, hash: Hash)

  /** Memory is at the tip of the ledger; above an empty ledger it may hold another hash than the anchor's. */
  ghost predicate MemoryAt(s: Ledger, height: int, hash: Hash) {
    height == s.Tip() && (s.chain != [] ==> hash == s.HashAt(s.Tip()))
  }

  /** Core's chain continues the block in memory. */
  ghost predicate Continues(core: Core, height: int, hash: Hash) {
    core.HashAt(height) == Some(hash)
  }

  /** A reorganisation check can get the ledger onto Core's chain. */
  ghost predicate Recovers(core: Core, s: Ledger, db: Db, depth: nat) {
    OnCore(core, s) || Reachable(s, depth, Forked(core, s, db, depth))
  }

  /** The ledger it then leaves. */
  function Based(core: Core, s: Ledger, db: Db, depth: nat): Ledger {
    if core.HashAt(s.Tip()) == Some(s.HashAt(s.Tip())) then s else Landed(core, s, Forked(core, s, db, depth))
  }

  /** A reorganisation check that fails: nothing has changed, or the rollback stopped at a missing undo record. */
  ghost predicate Stopped(core: Core, s: Ledger, depth: nat, m: Node, m': Node, s': Ledger) {
    if Halfway(core, s, Forked(core, s, m.db, depth), depth)
    then
      && s' == s.Cut(s.low - 1) && InStepWith(m'.db, s') && Sized(s')
      && m' == m.(db := m'.db) && m'.db.checkpoint == m.db.checkpoint
      && RolledBack(m.db, s.chain, s.start, |s'.chain|) == Some(m'.db)
    else m' == m && s' == s
  }

  /** Memory and checkpoint are at the tip of a ledger that follows Core to this height. */
  ghost predicate AtHeight(core: Core, top: int, m: Node, s: Ledger) {
    Tracks(m.db, s) && m.height == s.Tip() == top && Continues(core, top, m.hash)
  }

  /** A reorganisation check, from node m with ledger s to node m' with ledger s'. */
  ghost predicate Reorganised(core: Core, s: Ledger, depth: nat, m: Node, m': Node, s': Ledger) {
    if core.Has(s.Tip()) && Recovers(core, s, m.db, depth)
    then
      && s' == Based(core, s, m.db, depth) && AtHeight(core, s'.Tip(), m', s')
      && m'.overlay == (if OnCore(core, s) then m.overlay else EMPTY_OVERLAY)
      && RolledBack(m.db, s.chain, s.start, |s'.chain|) == Some(m'.db.(checkpoint := m.db.checkpoint))
      && (OnCore(core, s) ==> m'.db == m.db)
    else Stopped(core, s, depth, m, m', s')
  }

  /** Core's blocks above a ledger up to a height have been indexed. */
  ghost predicate Reached(core: Core, base: Ledger, top: int, ov: OverlayView, m': Node, s': Ledger) {
    && base.chain <= s'.chain && s' == base.(chain := s'.chain) && SameAsCore(core, s') && AtHeight(core, top, m', s')
    && m'.overlay == Overtaken(s'.chain, s'.start, |base.chain|, |s'.chain|, ov)
  }

  /** The highest of the wanted heights that Core has. */
  function Top(core: Core, target: int): int {
    if core.Has(target) then target else |core.blocks| - 1
  }

  /** One pass of the catch-up loop. */
  ghost predicate Fetched(core: Core, target: int, s: Ledger, depth: nat, m: Node, m': Node, s': Ledger) {
    if Continues(core, m.height, m.hash) then Reached(core, s, Top(core, target), m.overlay, m', s')
    else if core.Has(s.Tip() + 1) then Reorganised(core, s, depth, m, m', s')
    else m' == m && s' == s
  }

  /** The catch-up can get to this height. */
  ghost predicate CatchesUp(core: Core, target: int, s: Ledger, depth: nat, m: Node) {
    target <= s.Tip() || (core.Has(target) && (Continues(core, m.height, m.hash) || Recovers(core, s, m.db, depth)))
  }

  /** The whole catch-up, whether it gets to its target or not. */
  ghost predicate CaughtUp(core: Core, target: int, s: Ledger, depth: nat, m: Node, m': Node, s': Ledger) {
    if target <= s.Tip() then m' == m && s' == s
    else if Continues(core, m.height, m.hash) then Reached(core, s, Top(core, target), m.overlay, m', s')
    else if !core.Has(s.Tip() + 1) then m' == m && s' == s
    else if Recovers(core, s, m.db, depth)
    then Reached(core, Based(core, s, m.db, depth), Top(core, target), if OnCore(core, s) then m.overlay else EMPTY_OVERLAY, m', s')
    else Stopped(core, s, depth, m, m', s')
  }

  /** A block on top of the one in memory: indexed, unless its header is malformed; the overlay confirms it either way. */
  ghost predicate Appended(b: Block, s: Ledger, m: Node, m': Node, s': Ledger, height: Option<int>) {
    && m'.overlay == ConfirmBlock(m.overlay, m.db.rows, b.txs, |b.txs|)
    && if |b.header.raw| == HEADER_LENGTH
       then
         && height == Some(s.Tip() + 1) && s'.chain != [] && s' == Grown(s, Entry(b, s'.chain[|s'.chain| - 1].order))
         && Tracks(m'.db, s') && m'.height == s'.Tip() && m'.hash == b.header.hash
       else height == None && s' == s && m' == m.(overlay := m'.overlay)
  }

  /** After the catch-up, the block is processed again. */
  ghost predicate Retried(core: Core, b: Block, known: int, s: Ledger, depth: nat, m: Node, mid: Node, t: Ledger,
                          m': Node, s': Ledger, height: Option<int>)
  {
    && CaughtUp(core, known - 1, s, depth, m, mid, t)
    && if CatchesUp(core, known - 1, s, depth, m) && b.header.prev == mid.hash
       then Appended(b, t, mid, m', s', height)
       else m' == mid && s' == t && height == None
  }

  /** Everything that processing an announced block does, from node m with ledger s to node m' with ledger s'. */
  ghost predicate Processed(core: Core, b: Block, known: Option<int>, s: Ledger, depth: nat, m: Node,
                            m': Node, s': Ledger, height: Option<int>)
  {
    if b.header.prev == m.hash then Appended(b, s, m, m', s', height)
    else if known == None then m' == m && s' == s && height == None
    else if known.value > s.Tip() + 1
    then exists mid, t :: Retried(core, b, known.value, s, depth, m, mid, t, m', s', height)
    else height == None && Reorganised(core, s, depth, m, m', s')
  }

  lemma {:induction false} OvertakenMore(db: Db, s: Ledger, e: Entry, n: nat, ov: OverlayView)
    requires InStepWith(db, s) && n <= |s.chain|
    ensures Overtaken(Grown(s, e).chain, s.start, n, |s.chain| + 1, ov) ==
            ConfirmBlock(Overtaken(s.chain, s.start, n, |s.chain|, ov), db.rows, e.block.txs, |e.block.txs|)
  {
    assert Unfolds(db);
    var longer := s.chain + [e];
    assert s.chain[..|s.chain|] == longer[..|s.chain|];
    OvertakenPrefix(s.chain, longer, s.start, n, |s.chain|, ov);
    PrefixOnly(s.chain, longer, s.start, |s.chain|);
  }

  lemma {:induction false} ReachedMore(core: Core, base: Ledger, ov: OverlayView, m: Node, s: Ledger, m': Node, s': Ledger, order: Order)
    requires Reached(core, base, s.Tip(), ov, m, s) && core.Has(s.Tip() + 1)
    requires s' == Grown(s, Entry(core.blocks[s.Tip() + 1], order)) && SameAsCore(core, s') && AtHeight(core, s'.Tip(), m', s')
    requires m'.overlay == ConfirmBlock(m.overlay, m.db.rows, core.blocks[s.Tip() + 1].txs, |core.blocks[s.Tip() + 1].txs|)
    ensures Reached(core, base, s'.Tip(), ov, m', s')
  {
    assert InStepWith(m.db, s);
    OvertakenMore(m.db, s, Entry(core.blocks[s.Tip() + 1], order), |base.chain|, ov);
  }

  lemma {:induction false} LinkedMore(s: Ledger, e: Entry)
    requires LedgerLinked(s) && (s.chain != [] ==> e.block.header.prev == s.HashAt(s.Tip()))
    ensures LedgerLinked(Grown(s, e))
  {
  }

  /** What the check reports, once memory has taken it over. */
  lemma {:induction false} HandledMeans(core: Core, s: Ledger, depth: nat, r: Option<ReorgResult>, m: Node, m': Node, s': Ledger)
    requires Tracks(m.db, s) && Handled(core, s, Forked(core, s, m.db, depth), depth, r, s')
    requires RolledBack(m.db, s.chain, s.start, |s'.chain|) == Some(m'.db.(checkpoint := m.db.checkpoint))
    requires r.Some? && !r.value.detected ==> m'.db == m.db && m'.overlay == m.overlay
    requires r.Some? && r.value.detected ==> Tracks(m'.db, s') && m'.overlay == EMPTY_OVERLAY
    requires r.Some? ==> m'.height == r.value.currentHeight && Some(m'.hash) == r.value.currentHash
    requires r == None ==> InStepWith(m'.db, s') && m'.db.checkpoint == m.db.checkpoint
    requires r == None ==> m'.height == m.height && m'.hash == m.hash && m'.overlay == m.overlay
    ensures Reorganised(core, s, depth, m, m', s')
    ensures r.Some? <==> core.Has(s.Tip()) && Recovers(core, s, m.db, depth)
  {
    if r == None {
      StoppedMeans(core, s, depth, r, m, m', s');
    } else if !OnCore(core, s) {
      ForkInRange(core, s, m.db.checkpoint, depth);
    }
  }

  lemma {:induction false} StoppedMeans(core: Core, s: Ledger, depth: nat, r: Option<ReorgResult>, m: Node, m': Node, s': Ledger)
    requires Tracks(m.db, s) && s' == if Halfway(core, s, Forked(core, s, m.db, depth), depth) then s.Cut(s.low - 1) else s
    requires RolledBack(m.db, s.chain, s.start, |s'.chain|) == Some(m'.db.(checkpoint := m.db.checkpoint))
    requires InStepWith(m'.db, s') && m'.db.checkpoint == m.db.checkpoint
    requires m'.height == m.height && m'.hash == m.hash && m'.overlay == m.overlay
    ensures Stopped(core, s, depth, m, m', s')
  {
    assert m'.db.(checkpoint := m.db.checkpoint) == m'.db;
  }

  lemma {:induction false} BasedSame(core: Core, s: Ledger, db: Db, depth: nat)
    requires Comparable(core, s) && Tracks(db, s) && core.Has(s.Tip()) && Recovers(core, s, db, depth)
    ensures SameAsCore(core, Based(core, s, db, depth))
  {
    if OnCore(core, s) {
      OnCoreSame(core, s);
    } else {
      LandedSame(core, s, db, depth);
    }
  }

  /** A successful reorganisation check leaves memory on Core's chain and every indexed block Core's. */
  lemma {:induction false} ReorganisedSame(core: Core, s: Ledger, depth: nat, m: Node, m': Node, s': Ledger)
    requires Comparable(core, s) && Tracks(m.db, s) && Reorganised(core, s, depth, m, m', s')
    requires core.Has(s.Tip()) && Recovers(core, s, m.db, depth)
    ensures SameAsCore(core, s') && MemoryAt(s', m'.height, m'.hash) && Continues(core, m'.height, m'.hash)
  {
    if OnCore(core, s) {
      OnCoreSame(core, s);
    } else {
      LandedSame(core, s, m.db, depth);
    }
  }

  /** Where catching up begins. */
  lemma {:induction false} ReachedNone(core: Core, m: Node, s: Ledger)
    requires Comparable(core, s) && Tracks(m.db, s) && MemoryAt(s, m.height, m.hash) && Continues(core, m.height, m.hash)
    ensures Reached(core, s, s.Tip(), m.overlay, m, s)
  {
    OnCoreSame(core, s);
  }

  lemma {:induction false} ReachedSame(core: Core, base: Ledger, top: int, ov: OverlayView, m: Node, s: Ledger)
    requires Reached(core, base, top, ov, m, s)
    ensures SameAsCore(core, s) && MemoryAt(s, m.height, m.hash) && Continues(core, m.height, m.hash)
  {
    if s.chain != [] {
      assert SameBlock(core, s, |s.chain| - 1);
    }
  }

  /** A pass that need not be repeated. */
  lemma {:induction false} CaughtUpOnce(core: Core, target: int, s: Ledger, depth: nat, m: Node, m': Node, s': Ledger)
    requires Tracks(m.db, s) && target > s.Tip() && Fetched(core, target, s, depth, m, m', s')
    requires Continues(core, m.height, m.hash) || !core.Has(s.Tip() + 1) || !Recovers(core, s, m.db, depth)
    ensures CaughtUp(core, target, s, depth, m, m', s')
  {
  }

  /** A reorganisation and then the rest of the catch-up. */
  lemma {:induction false} CaughtUpAgain(core: Core, target: int, s: Ledger, depth: nat, m: Node, mid: Node, t: Ledger, m': Node, s': Ledger)
    requires Tracks(m.db, s) && target > s.Tip() && core.Has(s.Tip() + 1) && !Continues(core, m.height, m.hash)
    requires Recovers(core, s, m.db, depth) && Fetched(core, target, s, depth, m, mid, t)
    requires CaughtUp(core, target, t, depth, mid, m', s')
    ensures CaughtUp(core, target, s, depth, m, m', s')
    ensures CatchesUp(core, target, t, depth, mid) <==> CatchesUp(core, target, s, depth, m)
  {
    BasedBelow(core, s, m.db, depth);
  }

  lemma {:induction false} BasedBelow(core: Core, s: Ledger, db: Db, depth: nat)
    requires Tracks(db, s)
    ensures Based(core, s, db, depth).Tip() <= s.Tip()
  {
    ForkInRange(core, s, db.checkpoint, depth);
  }

  lemma {:induction false} CaughtUpInStep(core: Core, target: int, s: Ledger, depth: nat, m: Node, m': Node, s': Ledger)
    requires CaughtUp(core, target, s, depth, m, m', s') && InStepWith(m.db, s)
    ensures InStepWith(m'.db, s') && s'.start == s.start && s'.low == s.low
  {
  }

  /** Where catching up gets to if it can. */
  lemma {:induction false} CaughtUpReached(core: Core, target: int, s: Ledger, depth: nat, m: Node, m': Node, s': Ledger)
    returns (base: Ledger, ov: OverlayView)
    requires CaughtUp(core, target, s, depth, m, m', s') && CatchesUp(core, target, s, depth, m) && target > s.Tip() >= 0
    ensures Reached(core, base, target, ov, m', s')
  {
    if Continues(core, m.height, m.hash) {
      base, ov := s, m.overlay;
    } else {
      base, ov := Based(core, s, m.db, depth), if OnCore(core, s) then m.overlay else EMPTY_OVERLAY;
    }
  }

  lemma {:induction false} CaughtUpMeans(core: Core, target: int, s: Ledger, depth: nat, m: Node, m': Node, s': Ledger)
    requires CaughtUp(core, target, s, depth, m, m', s') && CatchesUp(core, target, s, depth, m) && target > s.Tip() >= 0
    ensures Tracks(m'.db, s') && SameAsCore(core, s') && s'.Tip() == m'.height == target
    ensures MemoryAt(s', m'.height, m'.hash) && Continues(core, target, m'.hash)
    ensures m'.db.checkpoint.height == target && m'.db.checkpoint.hash == core.HashAt(target)
  {
    var base, ov := CaughtUpReached(core, target, s, depth, m, m', s');
    ReachedSame(core, base, target, ov, m', s');
  }

  /** Pruning at the tip: undo records more than the maximal depth below it go. */
  ghost predicate Pruned(s: Ledger, depth: nat, m: Node, m': Node, s': Ledger) {
    && m' == m.(db := m'.db) && m'.db == Cleared(m.db, m.height, depth)
    && s' == if m.height - depth > s.low then s.(low := m.height - depth) else s
  }

  lemma {:induction false} PrunedTracks(s: Ledger, depth: nat, m: Node, m': Node) returns (s': Ledger)
    requires Tracks(m.db, s) && m.height == s.Tip()
    requires m' == m.(db := m'.db) && m'.db == Cleared(m.db, m.height, depth)
    ensures Pruned(s, depth, m, m', s') && Tracks(m'.db, s')
  {
    s' := s;
    if m.height > depth {
      s' := PrunedKeeps(m.db, s, m.height - depth);
    }
  }

  // ----- what processing a block comes to

  /** Where the announced block is indexed, if it is. */
  ghost function HeightFor(core: Core, b: Block, known: Option<int>, s: Ledger, depth: nat, m: Node): Option<int> {
    if |b.header.raw| != HEADER_LENGTH then None
    else if b.header.prev == m.hash then Some(s.Tip() + 1)
    else if && known.Some? && known.value > s.Tip() + 1 && core.HashAt(known.value - 1) == Some(b.header.prev)
            && (Continues(core, m.height, m.hash) || Recovers(core, s, m.db, depth))
    then known
    else None
  }

  /** The block ends the ledger and memory is at it. */
  ghost predicate Ends(b: Block, height: int, m: Node, s: Ledger) {
    && Tracks(m.db, s) && s.Tip() == m.height == height && m.hash == b.header.hash
    && s.chain != [] && s.chain[|s.chain| - 1].block == b
  }

  lemma {:induction false} AppendedMeans(core: Core, b: Block, s: Ledger, m: Node, m': Node, s': Ledger, height: Option<int>)
    requires Tracks(m.db, s) && LedgerLinked(s) && MemoryAt(s, m.height, m.hash) && b.header.prev == m.hash
    requires Appended(b, s, m, m', s', height)
    ensures height == if |b.header.raw| == HEADER_LENGTH then Some(s.Tip() + 1) else None
    ensures height.Some? ==> Ends(b, height.value, m', s')
    ensures LedgerLinked(s') && InStepWith(m'.db, s') && s'.start == s.start && s'.low == s.low
    ensures Tracks(m'.db, s') && MemoryAt(s', m'.height, m'.hash)
  {
  }

  lemma {:induction false} CaughtUpLinked(core: Core, target: int, s: Ledger, depth: nat, m: Node, m': Node, s': Ledger)
    requires Comparable(core, s) && Tracks(m.db, s) && CaughtUp(core, target, s, depth, m, m', s')
    ensures LedgerLinked(s')
  {
    if SameAsCore(core, s') && s'.start >= 1 {
      SameIsLinked(core, s');
    }
  }

  /** Catching up to just below the block says whether the block connects there. */
  lemma {:induction false} JoinsWhen(core: Core, b: Block, known: int, s: Ledger, depth: nat, m: Node, mid: Node, t: Ledger)
    requires Tracks(m.db, s) && known > s.Tip() + 1 && b.header.prev != m.hash && CaughtUp(core, known - 1, s, depth, m, mid, t)
    ensures HeightFor(core, b, Some(known), s, depth, m) ==
            if CatchesUp(core, known - 1, s, depth, m) && b.header.prev == mid.hash && |b.header.raw| == HEADER_LENGTH
            then Some(known) else None
  {
    if CatchesUp(core, known - 1, s, depth, m) {
      CaughtUpMeans(core, known - 1, s, depth, m, mid, t);
    }
  }

  lemma {:induction false} RetriedHeight(core: Core, b: Block, known: int, s: Ledger, depth: nat, m: Node, mid: Node, t: Ledger,
                                         m': Node, s': Ledger, height: Option<int>)
    requires Tracks(m.db, s) && known > s.Tip() + 1 && b.header.prev != m.hash
    requires Retried(core, b, known, s, depth, m, mid, t, m', s', height)
    ensures height == HeightFor(core, b, Some(known), s, depth, m)
  {
    JoinsWhen(core, b, known, s, depth, m, mid, t);
    if CatchesUp(core, known - 1, s, depth, m) {
      CaughtUpMeans(core, known - 1, s, depth, m, mid, t);
    }
  }

  lemma {:induction false} CaughtUpKeepsLedger(core: Core, target: int, s: Ledger, depth: nat, m: Node, m': Node, s': Ledger)
    requires Comparable(core, s) && Tracks(m.db, s) && CaughtUp(core, target, s, depth, m, m', s')
    ensures LedgerLinked(s') && InStepWith(m'.db, s') && s'.start == s.start && s'.low == s.low
  {
    CaughtUpLinked(core, target, s, depth, m, m', s');
    CaughtUpInStep(core, target, s, depth, m, m', s');
  }

  lemma {:induction false} RetriedJoins(core: Core, b: Block, known: int, s: Ledger, depth: nat, m: Node, mid: Node, t: Ledger,
                                        m': Node, s': Ledger, height: Option<int>)
    requires Comparable(core, s) && Tracks(m.db, s) && known > s.Tip() + 1
    requires CaughtUp(core, known - 1, s, depth, m, mid, t) && CatchesUp(core, known - 1, s, depth, m) && b.header.prev == mid.hash
    requires Appended(b, t, mid, m', s', height)
    ensures height.Some? ==> Ends(b, height.value, m', s')
    ensures LedgerLinked(s') && InStepWith(m'.db, s') && s'.start == s.start && s'.low == s.low
  {
    CaughtUpKeepsLedger(core, known - 1, s, depth, m, mid, t);
    CaughtUpMeans(core, known - 1, s, depth, m, mid, t);
    AppendedMeans(core, b, t, mid, m', s', height);
  }

  lemma {:induction false} RetriedMeans(core: Core, b: Block, known: int, s: Ledger, depth: nat, m: Node, mid: Node, t: Ledger,
                                        m': Node, s': Ledger, height: Option<int>)
    requires Comparable(core, s) && Tracks(m.db, s) && known > s.Tip() + 1
    requires Retried(core, b, known, s, depth, m, mid, t, m', s', height)
    ensures height.Some? ==> Ends(b, height.value, m', s')
    ensures LedgerLinked(s') && InStepWith(m'.db, s') && s'.start == s.start && s'.low == s.low
  {
    if CatchesUp(core, known - 1, s, depth, m) && b.header.prev == mid.hash {
      RetriedJoins(core, b, known, s, depth, m, mid, t, m', s', height);
    } else {
      CaughtUpKeepsLedger(core, known - 1, s, depth, m, mid, t);
    }
  }

  lemma {:induction false} ReorganisedInStep(core: Core, s: Ledger, depth: nat, m: Node, m': Node, s': Ledger)
    requires LedgerLinked(s) && InStepWith(m.db, s) && Reorganised(core, s, depth, m, m', s')
    ensures LedgerLinked(s') && InStepWith(m'.db, s') && s'.start == s.start && s'.low == s.low
  {
  }

  /** At which height the block is indexed, and what holds whatever happens. */
  lemma {:induction false} ProcessedMeans(core: Core, b: Block, known: Option<int>, s: Ledger, depth: nat, m: Node,
                                          m': Node, s': Ledger, height: Option<int>)
    requires Comparable(core, s) && Tracks(m.db, s) && MemoryAt(s, m.height, m.hash)
    requires Processed(core, b, known, s, depth, m, m', s', height)
    ensures height == HeightFor(core, b, known, s, depth, m)
    ensures height.Some? ==> Ends(b, height.value, m', s')
    ensures LedgerLinked(s') && InStepWith(m'.db, s') && s'.start == s.start && s'.low == s.low
  {
    if b.header.prev == m.hash {
      AppendedMeans(core, b, s, m, m', s', height);
    } else if known.Some? && known.value > s.Tip() + 1 {
      var mid, t :| Retried(core, b, known.value, s, depth, m, mid, t, m', s', height);
      RetriedHeight(core, b, known.value, s, depth, m, mid, t, m', s', height);
      RetriedMeans(core, b, known.value, s, depth, m, mid, t, m', s', height);
    } else if known.Some? {
      ReorganisedInStep(core, s, depth, m, m', s');
    }
  }

  datatype Fetch = Done | Failed | Again

  class ChainManager {
    const store: Database
    const mempool: MempoolOverlay
    const indexer: BlockIndexer
    const reorgs: ReorgHandler
    var currentHeight: int
    var currentHash: Hash
    var startHeight: int

    ghost predicate Wired()
      reads mempool, mempool.cells
    {
      && mempool.Valid() && mempool.store == store
      && indexer.store == store && indexer.mempool == mempool
      && reorgs.store == store && reorgs.mempool == mempool
    }

    constructor (store: Database, mempool: MempoolOverlay, maxReorgDepth: nat)
      requires mempool.Valid() && mempool.store == store
      ensures this.store == store && this.mempool == mempool && reorgs.maxReorgDepth == maxReorgDepth
      ensures Wired() && Blank()
    {
      this.store, this.mempool := store, mempool;
      indexer := new BlockIndexer(store, mempool);
      reorgs := new ReorgHandler(store, mempool, maxReorgDepth);
      currentHeight, currentHash, startHeight := 0, ZERO_HASH, 0;
    }

    /** Nothing in memory yet. */
    ghost predicate Blank()
      reads this
    {
      currentHeight == 0 && currentHash == ZERO_HASH
    }

    ghost function Now(): Node
      reads this, store, mempool
    {
      Node(store.db, mempool.view, currentHeight, currentHash)
    }

    ghost predicate AtTip(s: Ledger)
      reads this
    {
      MemoryAt(s, currentHeight, currentHash)
    }

    ghost predicate Connected(core: Core)
      reads this
    {
      Continues(core, currentHeight, currentHash)
    }

    /** Indexes a block that links to the block in memory. */
    method Connect(b: Block, height: int, ghost s: Ledger) returns (ok: bool, ghost s': Ledger)
      requires Wired() && Tracks(store.db, s) && height == s.Tip() + 1
      requires Fresh(b.txs, ChainTxids(s.chain, |s.chain|))
      modifies this, store, mempool
      ensures Wired() && startHeight == old(startHeight)
      ensures ok <==> |b.header.raw| == HEADER_LENGTH
      ensures ok ==> s'.chain != [] && s' == Grown(s, Entry(b, s'.chain[|s'.chain| - 1].order))
      ensures ok ==> Tracks(store.db, s') && currentHeight == height && currentHash == b.header.hash
      ensures !ok ==> s' == s && store.db == old(store.db) && currentHeight == old(currentHeight) && currentHash == old(currentHash)
      ensures mempool.view == ConfirmBlock(old(mempool.view), old(store.db.rows), b.txs, |b.txs|)
    {
      ghost var order;
      ok, order := indexer.IndexBlock(b, height);
      s' := s;
      if ok {
        s' := Grown(s, Entry(b, order));
        GrownTracks(old(store.db), store.db, s, Entry(b, order));
        currentHeight, currentHash := height, b.header.hash;
      }
    }

    /** Indexes Core's next block, whose header is sound, so that this cannot fail. */
    method Extend(core: Core, height: int, ghost base: Ledger, ghost ov: OverlayView, ghost s: Ledger) returns (ghost s': Ledger)
      requires Wired() && Sound(core, s.start) && Reached(core, base, s.Tip(), ov, Now(), s)
      requires core.Has(height) && height == s.Tip() + 1
      modifies this, store, mempool
      ensures Wired() && startHeight == old(startHeight)
      ensures Reached(core, base, height, ov, Now(), s') && currentHeight == height
    {
      ghost var m := Now();
      assert InStepWith(store.db, s);
      NextIsFresh(core, s);
      var ok;
      ok, s' := Connect(core.blocks[height], height, s);
      ghost var e := s'.chain[|s'.chain| - 1];
      GrownSame(core, s, e);
      ReachedMore(core, base, ov, m, s, Now(), s', e.order);
    }

    /** Takes over the outcome of a reorganisation check. */
    method Reorganise(core: Core, ghost s: Ledger) returns (r: Option<ReorgResult>, ghost s': Ledger)
      requires Wired() && (Tracks(store.db, s) || (Unanchored(store.db) && Blank()))
      modifies this, store, mempool
      ensures Wired() && startHeight == old(startHeight)
      ensures Unanchored(old(store.db)) ==> r.Some? && s' == s && Now() == old(Now())
      ensures !Unanchored(old(store.db)) ==>
                (r.Some? <==> core.Has(s.Tip()) && Recovers(core, s, old(store.db), reorgs.maxReorgDepth))
      ensures !Unanchored(old(store.db)) ==> Reorganised(core, s, reorgs.maxReorgDepth, old(Now()), Now(), s')
    {
      r, s' := reorgs.CheckAndHandle(core, s);
      if r.Some? {
        currentHeight := r.value.currentHeight;
        if r.value.currentHash.Some? {
          currentHash := r.value.currentHash.value;
        }
      }
      if !Unanchored(old(store.db)) {
        HandledMeans(core, s, reorgs.maxReorgDepth, r, old(Now()), Now(), s');
      }
    }

    /** A reorganisation found while connecting leaves memory and ledger on Core's chain, or an unanchored store as it was. */
    method Resolve(core: Core, ghost s: Ledger) returns (ok: bool, ghost s': Ledger)
      requires Wired() && Comparable(core, s)
      requires (Tracks(store.db, s) && core.Has(s.Tip())) || (Unanchored(store.db) && Blank())
      modifies this, store, mempool
      ensures Wired() && startHeight == old(startHeight)
      ensures Unanchored(old(store.db)) ==> ok && s' == s && Now() == old(Now())
      ensures !Unanchored(old(store.db)) ==> (ok <==> Recovers(core, s, old(store.db), reorgs.maxReorgDepth))
      ensures !Unanchored(old(store.db)) ==> Reorganised(core, s, reorgs.maxReorgDepth, old(Now()), Now(), s')
      ensures !Unanchored(old(store.db)) && ok ==>
                Comparable(core, s') && SameAsCore(core, s') && Tracks(store.db, s') && AtTip(s') && Connected(core)
    {
      var r;
      r, s' := Reorganise(core, s);
      ok := r.Some?;
      if ok && !Unanchored(old(store.db)) {
        ReorganisedSame(core, s, reorgs.maxReorgDepth, old(Now()), Now(), s');
        StillComparable(core, s');
      }
    }

    /** One pass of the catch-up loop: fetch and index up to the target, unless a block does not connect. */
    method FetchBlocks(core: Core, target: int, ghost s: Ledger) returns (r: Fetch, ghost s': Ledger)
      requires Wired() && Comparable(core, s) && target > currentHeight
      requires (Tracks(store.db, s) && AtTip(s)) || (Unanchored(store.db) && Blank())
      modifies this, store, mempool
      ensures Wired() && startHeight == old(startHeight)
      ensures Unanchored(old(store.db)) ==>
                r == (if core.Has(1) then Again else Failed) && Now() == old(Now())
      ensures !Unanchored(old(store.db)) ==>
                r == (if old(Connected(core)) then if core.Has(target) then Done else Failed
                      else if core.Has(s.Tip() + 1) && Recovers(core, s, old(store.db), reorgs.maxReorgDepth)
                      then Again else Failed)
      ensures !Unanchored(old(store.db)) ==> Fetched(core, target, s, reorgs.maxReorgDepth, old(Now()), Now(), s')
      ensures !Unanchored(old(store.db)) && r != Failed ==>
                Comparable(core, s') && SameAsCore(core, s') && Tracks(store.db, s') && AtTip(s') && Connected(core)
    {
      ghost var linked, tracked, m := Connected(core), !Unanchored(store.db), Now();
      s' := s;
      if tracked && linked {
        ReachedNone(core, m, s);
      }
      var height := currentHeight + 1;
      while height <= target
        invariant Wired() && startHeight == old(startHeight) && height == currentHeight + 1 <= target + 1
        invariant !linked || !tracked ==> s' == s && Now() == m
        invariant linked && tracked ==> Reached(core, s, currentHeight, m.overlay, Now(), s')
        invariant linked && !tracked ==> Blank()
        decreases target - height
      {
        if !core.Has(height) {
          return Failed, s';
        }
        var b := core.blocks[height];
        if b.header.prev != currentHash {
          var resolved;
          resolved, s' := Resolve(core, s');
          return if resolved then Again else Failed, s';
        }
        s' := Extend(core, height, s, m.overlay, s');
        height := height + 1;
      }
      if tracked {
        ReachedSame(core, s, target, m.overlay, Now(), s');
        StillComparable(core, s');
      }
      r := Done;
    }

    /** Fetches and indexes every block up to the target, rolling back to Core's chain first if it has to. */
    method CatchUpTo(core: Core, target: int, ghost s: Ledger) returns (ok: bool, ghost s': Ledger, ghost rollbacks: nat)
      requires Wired() && Comparable(core, s) && Tracks(store.db, s) && AtTip(s)
      modifies this, store, mempool
      ensures Wired() && startHeight == old(startHeight) && rollbacks <= 1
      ensures ok <==> old(CatchesUp(core, target, s, reorgs.maxReorgDepth, Now()))
      ensures CaughtUp(core, target, s, reorgs.maxReorgDepth, old(Now()), Now(), s')
      ensures ok && target > s.Tip() ==> AtHeight(core, target, Now(), s') && SameAsCore(core, s') && AtTip(s')
      ensures ok && target > s.Tip() ==>
                store.db.checkpoint.height == target && store.db.checkpoint.hash == core.HashAt(target)
      ensures old(Connected(core)) ==> rollbacks == 0
      ensures InStepWith(store.db, s') && s'.start == s.start && s'.low == s.low
      decreases if Connected(core) then 0 else 1
    {
      rollbacks := 0;
      if target <= currentHeight {
        return true, s, 0;
      }
      var r;
      r, s' := FetchBlocks(core, target, s);
      ok := r == Done;
      ghost var m, depth := old(Now()), reorgs.maxReorgDepth;
      if r != Again {
        CaughtUpOnce(core, target, s, depth, m, Now(), s');
      } else {
        ghost var mid, t := Now(), s';
        ok, s', rollbacks := CatchUpTo(core, target, s');
        rollbacks := rollbacks + 1;
        CaughtUpAgain(core, target, s, depth, m, mid, t, Now(), s');
      }
      CaughtUpInStep(core, target, s, depth, m, Now(), s');
      if ok {
        CaughtUpMeans(core, target, s, depth, m, Now(), s');
      }
    }

    /** A block Core announced: index it if it connects, else catch up to it or look for a reorganisation. */
    method ProcessBlock(core: Core, b: Block, known: Option<int>, ghost s: Ledger) returns (height: Option<int>, ghost s': Ledger)
      requires Wired() && Comparable(core, s) && Tracks(store.db, s) && AtTip(s)
      requires NewWhereItConnects(core, s, currentHash, b)
      modifies this, store, mempool
      ensures Wired() && startHeight == old(startHeight)
      ensures Processed(core, b, known, s, reorgs.maxReorgDepth, old(Now()), Now(), s', height)
      ensures height == old(HeightFor(core, b, known, s, reorgs.maxReorgDepth, Now()))
      ensures height.Some? ==> Ends(b, height.value, Now(), s')
      ensures LedgerLinked(s') && InStepWith(store.db, s') && s'.start == s.start && s'.low == s.low
      decreases if known.Some? && known.value > currentHeight + 1 then 1 else 0, 1
    {
      height, s' := None, s;
      if b.header.prev == currentHash {
        var ok;
        var next := currentHeight + 1;
        ok, s' := Connect(b, next, s);
        height := if ok then Some(next) else None;
      } else if known != None && known.value > currentHeight + 1 {
        height, s' := CatchUpAndRetry(core, b, known, s);
      } else if known != None {
        var r;
        r, s' := Reorganise(core, s);
      }
      ProcessedMeans(core, b, known, s, reorgs.maxReorgDepth, old(Now()), Now(), s', height);
    }

    /** The block is further ahead than the next one: fetch what lies between and process it again. */
    method CatchUpAndRetry(core: Core, b: Block, known: Option<int>, ghost s: Ledger) returns (height: Option<int>, ghost s': Ledger)
      requires Wired() && Comparable(core, s) && Tracks(store.db, s) && AtTip(s)
      requires NewWhereItConnects(core, s, currentHash, b) && known.Some? && known.value > currentHeight + 1
      modifies this, store, mempool
      ensures Wired() && startHeight == old(startHeight)
      requires b.header.prev != currentHash
      ensures exists mid, t :: Retried(core, b, known.value, s, reorgs.maxReorgDepth, old(Now()), mid, t, Now(), s', height)
      decreases 1, 0
    {
      var ok;
      ghost var rollbacks;
      ghost var tip := currentHash;
      ok, s', rollbacks := CatchUpTo(core, known.value - 1, s);
      ghost var mid, t := Now(), s';
      height := None;
      if ok {
        NewAfterCatchUp(core, s, s', tip, b);
        StillComparable(core, s');
        height, s' := ProcessBlock(core, b, known, s');
      }
      assert Retried(core, b, known.value, s, reorgs.maxReorgDepth, old(Now()), mid, t, Now(), s', height);
    }

    /** Anchors a fresh store below the given height. */
    method SetStartHeight(core: Core, height: int) returns (ok: bool, ghost s': Ledger)
      requires Wired()
      modifies this, store
      ensures Wired()
      ensures ok <==> old(currentHeight) <= 0 && (height <= 0 || core.Has(height - 1))
      ensures !ok || height <= 0 ==>
                store.db == old(store.db) && currentHeight == old(currentHeight) && currentHash == old(currentHash)
      ensures ok && height > 0 ==>
                s' == Ledger([], height, height, core.blocks[height - 1].header.hash) && AtTip(s') && Connected(core) &&
                startHeight == height &&
                store.db == old(store.db).(checkpoint := Checkpoint(height - 1, Some(currentHash), height))
    {
      s' := Ledger([], height, height, currentHash);
      if currentHeight > 0 {
        return false, s';
      }
      if height <= 0 {
        return true, s';
      }
      if !core.Has(height - 1) {
        return false, s';
      }
      Anchor(height, core.blocks[height - 1].header.hash);
      return true, Ledger([], height, height, currentHash);
    }

    method Anchor(height: int, hash: Hash)
      modifies this`currentHeight, this`currentHash, this`startHeight, store
      ensures currentHeight == height - 1 && currentHash == hash && startHeight == height
      ensures store.db == old(store.db).(checkpoint := Checkpoint(height - 1, Some(hash), height))
    {
      currentHeight, currentHash, startHeight := height - 1, hash, height;
      store.SaveCheckpoint(Checkpoint(height - 1, Some(hash), height));
    }

    /** Start-up: handle any reorganisation, then load memory from the checkpoint. */
    method Initialize(core: Core, ghost s: Ledger) returns (ok: bool, ghost s': Ledger)
      requires Wired() && (Tracks(store.db, s) || Unanchored(store.db))
      modifies this, store, mempool
      ensures Wired()
      ensures Unanchored(old(store.db)) ==> ok && Blank() && store.db == old(store.db)
      ensures !Unanchored(old(store.db)) ==>
                (ok <==> core.Has(s.Tip()) && Recovers(core, s, old(store.db), reorgs.maxReorgDepth))
      ensures !Unanchored(old(store.db)) && ok ==>
                s' == Based(core, s, old(store.db), reorgs.maxReorgDepth) && Tracks(store.db, s') && AtTip(s') &&
                currentHash == s'.HashAt(s'.Tip())
      ensures !Unanchored(old(store.db)) && ok ==>
                if OnCore(core, s) then store.db == old(store.db) && mempool.view == old(mempool.view)
                else mempool.view == EMPTY_OVERLAY && store.db.checkpoint.startHeight == 0
      ensures !Unanchored(old(store.db)) && ok && Comparable(core, s) ==> SameAsCore(core, s')
      ensures !ok ==> Stopped(core, s, reorgs.maxReorgDepth, old(Now()), Now(), s')
      ensures startHeight == if ok && store.db.checkpoint.startHeight > 0 then store.db.checkpoint.startHeight else old(startHeight)
    {
      var r;
      r, s' := reorgs.CheckAndHandle(core, s);
      ok := r.Some?;
      if ok {
        if !Unanchored(old(store.db)) && Comparable(core, s) {
          BasedSame(core, s, old(store.db), reorgs.maxReorgDepth);
        }
        Load();
      }
    }

    method Load()
      modifies this`currentHeight, this`currentHash, this`startHeight
      ensures currentHeight == store.db.checkpoint.height
      ensures currentHash == if store.db.checkpoint.hash.Some? then store.db.checkpoint.hash.value else ZERO_HASH
      ensures startHeight == if store.db.checkpoint.startHeight > 0 then store.db.checkpoint.startHeight else old(startHeight)
    {
      var c := store.db.checkpoint;
      currentHeight, currentHash := c.height, if c.hash.Some? then c.hash.value else ZERO_HASH;
      if c.startHeight > 0 {
        startHeight := c.startHeight;
      }
    }

    method PruneOldUndoData(ghost s: Ledger) returns (pruned: nat, ghost s': Ledger)
      requires Wired() && Tracks(store.db, s) && currentHeight == s.Tip()
      modifies store
      ensures Wired() && Tracks(store.db, s') && Pruned(s, reorgs.maxReorgDepth, old(Now()), Now(), s')
      ensures pruned == |old(store.db).undos.Keys - store.db.undos.Keys|
    {
      pruned := reorgs.PruneOldUndoData(currentHeight);
      ghost var m, now := old(Now()), Now();
      s' := PrunedTracks(s, reorgs.maxReorgDepth, m, now);
    }
  }
}
