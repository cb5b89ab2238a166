/** Following Core through reorganisations: find the fork, roll back to it, prune old undo records. */
module Reorg {
  import opened Types
  import opened Store
  import opened Indexing
  import opened Replay
  import opened Overlay
  import opened Mempool
  import opened Indexer
  import opened ChainSync
  import Keys

  /** Bitcoin Core's best chain, from height 0. */
  datatype Core = Core(blocks: seq<Block>) {
    predicate Has(height: int) { 0 <= height < |blocks| }
    function HashAt(height: int): Option<Hash> {
      if Has(height) then Some(blocks[height].header.hash) else None
    }
  }

  /** What has been indexed: a chain of entries from height `start`, above a block with hash `anchor`. */
  datatype Ledger = Ledger(chain: seq<Entry>, start: int, low: int, anchor: Hash) {
    function Tip(): int { start + |chain| - 1 }

    function HashAt(height: int): Hash
      requires start - 1 <= height <= Tip()
    {
      if height < start then anchor else chain[height - start].block.header.hash
    }

    /** The ledger with nothing above a height. */
    function Cut(height: int): Ledger {
      if start - 1 <= height < Tip() then this.(chain := chain[..height + 1 - start]) else this
    }
  }

  /** Mentioning Unfolds(db) in a proof unfolds the predicate below for that store. */
  ghost predicate Unfolds(db: Db) {
    true
  }

  ghost predicate InStepWith(db: Db, s: Ledger) {
    && 1 <= s.start <= s.low <= s.Tip() + 1
    && forall d {:trigger Unfolds(d)} :: d == db ==> Synced(d, s.chain, s.start, s.low) && Ordered(s.chain, s.start)
  }

  /** Only 80-byte headers are ever stored. */
  ghost predicate Sized(s: Ledger) {
    forall i :: 0 <= i < |s.chain| ==> |s.chain[i].block.header.raw| == HEADER_LENGTH
  }

  ghost predicate CheckpointFits(c: Checkpoint, s: Ledger) {
    && c.height == s.Tip() && s.Tip() >= s.start - 1
    && c.hash == Some(s.HashAt(s.Tip()))
    && (c.startHeight <= 0 || c.startHeight == s.start)
  }

  /** The store follows the ledger and the checkpoint is at its tip. */
  ghost predicate Tracks(db: Db, s: Ledger) {
    InStepWith(db, s) && Sized(s) && CheckpointFits(db.checkpoint, s)
  }

  /** No block indexed and no start height set. */
  predicate Unanchored(db: Db) {
    db.checkpoint.height == 0 && db.checkpoint.hash == None
  }

  // ----- which hash the store has at a height

  /** The undo record at this height whose key comes first. */
  predicate IsFirstUndo(undos: map<UndoKey, UndoBlock>, height: int, k: UndoKey) {
    && k in undos && k.height == height
    && forall j {:trigger j in undos} :: j in undos && j.height == height ==>
         j == k || Keys.Less(k.blockHash.bytes, j.blockHash.bytes)
  }

  lemma {:induction false} FirstUndoExists(undos: map<UndoKey, UndoBlock>, height: int, k: UndoKey)
    requires k in undos && k.height == height
    ensures exists first :: IsFirstUndo(undos, height, first)
  {
    if !IsFirstUndo(undos, height, k) {
      var less := undos - {k};
      var j :| j in less && j.height == height;
      FirstUndoExists(less, height, j);
      var first :| IsFirstUndo(less, height, first);
      Keys.LessTotal(first.blockHash.bytes, k.blockHash.bytes);
      if Keys.Less(k.blockHash.bytes, first.blockHash.bytes) {
        forall x | x in undos && x.height == height ensures x == k || Keys.Less(k.blockHash.bytes, x.blockHash.bytes) {
          if x != k && x != first {
            assert x in less;
            Keys.LessTrans(k.blockHash.bytes, first.blockHash.bytes, x.blockHash.bytes);
          }
        }
        assert IsFirstUndo(undos, height, k);
      } else {
        forall x | x in undos && x.height == height ensures x == first || Keys.Less(first.blockHash.bytes, x.blockHash.bytes) {
          assert x == k || x in less;
        }
        assert IsFirstUndo(undos, height, first);
      }
    }
  }

  /** The checkpoint first, then the first undo record at that height, then a well-formed header. */
  ghost predicate OurHash(db: Db, height: int, r: Option<Hash>) {
    if db.checkpoint.height == height && db.checkpoint.hash != None then r == db.checkpoint.hash
    else if exists k :: k in db.undos && k.height == height
    then exists k :: IsFirstUndo(db.undos, height, k) && r == Some(k.blockHash)
    else if height in db.rows.headers && |db.rows.headers[height].raw| == HEADER_LENGTH
    then r == Some(db.rows.headers[height].hash)
    else r == None
  }

  lemma {:induction false} HeaderAt(chain: seq<Entry>, start: int, n: nat, i: nat)
    requires i < n <= |chain|
    ensures start + i in Rebuild(chain, start, n).headers
    ensures Rebuild(chain, start, n).headers[start + i] == chain[i].block.header
  {
    if i < n - 1 {
      HeaderAt(chain, start, n - 1, i);
    }
  }

  lemma {:induction false} HeaderInChain(chain: seq<Entry>, start: int, n: nat, height: int)
    requires n <= |chain|
    ensures height in Rebuild(chain, start, n).headers ==> start <= height < start + n
  {
    if n > 0 {
      HeaderInChain(chain, start, n - 1, height);
    }
  }

  /** In step, the store knows the hash at exactly the heights of the ledger, and at its checkpoint. */
  lemma {:induction false} OurHashIsLedgers(db: Db, s: Ledger, height: int, r: Option<Hash>)
    requires InStepWith(db, s) && Sized(s) && OurHash(db, height, r)
    ensures r == if db.checkpoint.height == height && db.checkpoint.hash != None then db.checkpoint.hash
                 else if s.start <= height <= s.Tip() then Some(s.HashAt(height)) else None
  {
    assert Unfolds(db);
    if db.checkpoint.height != height || db.checkpoint.hash == None {
      if k :| IsFirstUndo(db.undos, height, k) && r == Some(k.blockHash) {
        assert KeyOnChain(k, s.chain, s.start, s.low);
      } else if s.start <= height <= s.Tip() {
        HeaderAt(s.chain, s.start, |s.chain|, height - s.start);
      } else {
        HeaderInChain(s.chain, s.start, |s.chain|, height);
      }
    }
  }

  // ----- the fork

  /** Where the search for a fork stops: the start height, as far as the checkpoint still knows it. */
  function Boundary(c: Checkpoint): int {
    if c.startHeight > 0 then c.startHeight else 1
  }

  predicate Matches(core: Core, s: Ledger, height: int) {
    s.start <= height <= s.Tip() && core.HashAt(height) == Some(s.HashAt(height))
  }

  /** The highest matching height from `height` down, no deeper than `depth` below the tip; else just below the boundary. */
  function ForkBelow(core: Core, s: Ledger, boundary: int, depth: nat, height: int): int
    decreases height - boundary
  {
    if height < boundary || s.Tip() - height > depth then boundary - 1
    else if Matches(core, s, height) then height
    else ForkBelow(core, s, boundary, depth, height - 1)
  }

  function Fork(core: Core, s: Ledger, boundary: int, depth: nat): int {
    ForkBelow(core, s, boundary, depth, s.Tip() - 1)
  }

  lemma {:induction false} ForkBelowHighest(core: Core, s: Ledger, boundary: int, depth: nat, height: int)
    ensures var f := ForkBelow(core, s, boundary, depth, height);
            || (boundary <= f <= height && s.Tip() - f <= depth && Matches(core, s, f)
                && forall h :: f < h <= height ==> !Matches(core, s, h))
            || (f == boundary - 1
                && forall h :: boundary <= h <= height && s.Tip() - h <= depth ==> !Matches(core, s, h))
    decreases height - boundary
  {
    if height >= boundary && s.Tip() - height <= depth && !Matches(core, s, height) {
      ForkBelowHighest(core, s, boundary, depth, height - 1);
    }
  }

  ghost predicate OnCore(core: Core, s: Ledger) {
    core.HashAt(s.Tip()) == Some(s.HashAt(s.Tip()))
  }

  /** A fork at f is within depth, or at height 0, and every undo record above it is still there. */
  ghost predicate Reachable(s: Ledger, depth: nat, f: int) {
    (s.Tip() - f <= depth || f <= 0) && (f == s.Tip() || s.low - 1 <= f)
  }

  /** The fork is within depth, but an undo record above it is missing: the rollback stops there, part of the way down. */
  ghost predicate Halfway(core: Core, s: Ledger, f: int, depth: nat) {
    core.Has(s.Tip()) && !OnCore(core, s) && (s.Tip() - f <= depth || f <= 0) && f < s.low - 1 < s.Tip()
  }

  function Forked(core: Core, s: Ledger, db: Db, depth: nat): int {
    Fork(core, s, Boundary(db.checkpoint), depth)
  }

  /** What a reorganisation check answers for a ledger whose fork from Core is at f. */
  ghost predicate Handled(core: Core, s: Ledger, f: int, depth: nat, r: Option<ReorgResult>, s': Ledger) {
    && (r.Some? <==> core.Has(s.Tip()) && (OnCore(core, s) || Reachable(s, depth, f)))
    && (r.Some? && OnCore(core, s) ==>
          r.value == ReorgResult(false, 0, None, 0, s.Tip(), Some(s.HashAt(s.Tip()))) && s' == s)
    && (r.Some? && !OnCore(core, s) ==>
          r.value == ReorgResult(true, f, core.HashAt(f), s.Tip() - f, f, core.HashAt(f)) && s' == Landed(core, s, f))
    && (r == None ==> s' == if Halfway(core, s, f, depth) then s.Cut(s.low - 1) else s)
  }

  lemma {:induction false} ForkInRange(core: Core, s: Ledger, c: Checkpoint, depth: nat)
    requires s.start >= 1 && CheckpointFits(c, s)
    ensures 0 <= Fork(core, s, Boundary(c), depth) <= s.Tip()
  {
    ForkBelowHighest(core, s, Boundary(c), depth, s.Tip() - 1);
  }

  // ----- hash-linked chains

  ghost predicate Linked(core: Core) {
    forall h :: 0 < h < |core.blocks| ==> core.blocks[h].header.prev == core.blocks[h - 1].header.hash
  }

  ghost predicate LedgerLinked(s: Ledger) {
    forall i :: 0 < i < |s.chain| ==> s.chain[i].block.header.prev == s.chain[i - 1].block.header.hash
  }

  /** A hash stands for one block. */
  ghost predicate Identified(core: Core, s: Ledger) {
    forall h :: Matches(core, s, h) ==> core.blocks[h] == s.chain[h - s.start].block
  }

  /** Where two linked chains agree, they agree at every height below. */
  lemma {:induction false} AgreeBelow(core: Core, s: Ledger, f: int, h: int)
    requires Linked(core) && LedgerLinked(s) && Identified(core, s) && s.start >= 1
    requires Matches(core, s, f) && s.start <= h <= f
    ensures Matches(core, s, h)
    decreases f - h
  {
    if h < f {
      AgreeBelow(core, s, f, h + 1);
      assert core.blocks[h + 1] == s.chain[h + 1 - s.start].block;
      assert s.chain[h + 1 - s.start].block.header.prev == s.chain[h - s.start].block.header.hash;
    }
  }

  /** Every height the ledger shares with Core is at or below f. */
  ghost predicate SplitsAt(core: Core, s: Ledger, f: int) {
    forall h :: s.start <= h <= s.Tip() ==> (Matches(core, s, h) <==> h <= f)
  }

  /** A chain that left Core's below the start can be dropped only while the start height is known, or is 1: a rollback forgets it. */
  lemma {:induction false} DivergedBelowStart(core: Core, s: Ledger, db: Db, depth: nat)
    requires 1 <= s.start <= s.low <= s.Tip() + 1 && CheckpointFits(db.checkpoint, s)
    requires forall h :: !Matches(core, s, h)
    ensures Reachable(s, depth, Forked(core, s, db, depth)) <==>
            && (db.checkpoint.startHeight == s.start || s.start == 1)
            && (|s.chain| <= depth || s.start == 1)
            && s.low == s.start
  {
    ForkBelowHighest(core, s, Boundary(db.checkpoint), depth, s.Tip() - 1);
  }

  /** Such a height always exists. */
  lemma {:induction false} CommonExists(core: Core, s: Ledger, h: int) returns (common: int)
    requires Linked(core) && LedgerLinked(s) && Identified(core, s) && s.start >= 1
    requires s.start - 1 <= h <= s.Tip() && forall x :: h < x <= s.Tip() ==> !Matches(core, s, x)
    ensures s.start - 1 <= common <= h && SplitsAt(core, s, common)
    decreases h - s.start
  {
    if h < s.start {
      common := h;
    } else if Matches(core, s, h) {
      common := h;
      forall x | s.start <= x <= h ensures Matches(core, s, x) {
        AgreeBelow(core, s, h, x);
      }
    } else {
      common := CommonExists(core, s, h - 1);
    }
  }

  lemma {:induction false} ForkAtSplit(core: Core, s: Ledger, boundary: int, depth: nat, common: int)
    requires !Matches(core, s, s.Tip()) && s.start - 1 <= common <= s.Tip() && SplitsAt(core, s, common)
    ensures Fork(core, s, boundary, depth) ==
            if s.start <= common && boundary <= common && s.Tip() - common <= depth then common else boundary - 1
  {
    ForkBelowHighest(core, s, boundary, depth, s.Tip() - 1);
    assert s.start <= common ==> Matches(core, s, common);
  }

  /** Linked chains with different tips agree up to some height and nowhere above it; the search finds that height if it is
      within reach, and else falls to the boundary. */
  lemma {:induction false} ForkIsHighestCommon(core: Core, s: Ledger, boundary: int, depth: nat) returns (common: int)
    requires Linked(core) && LedgerLinked(s) && Identified(core, s) && s.start >= 1 && !Matches(core, s, s.Tip())
    ensures s.start - 1 <= common <= s.Tip() && SplitsAt(core, s, common)
    ensures Fork(core, s, boundary, depth) ==
            if s.start <= common && boundary <= common && s.Tip() - common <= depth then common else boundary - 1
  {
    common := CommonExists(core, s, s.Tip());
    ForkAtSplit(core, s, boundary, depth, common);
  }

  // ----- rolling back, block by block

  function WithoutHistory(db: Db, s: seq<HistoryKey>): Db {
    db.(rows := db.rows.(history := db.rows.history - Elements(s)))
  }

  lemma {:induction false} WithoutHistoryStep(db: Db, p: Db, batch: seq<Edit>, s: seq<HistoryKey>, k: HistoryKey)
    requires Committed(db, batch) == WithoutHistory(p, s)
    ensures Committed(db, batch + [DeleteHistory(k)]) == WithoutHistory(p, s + [k])
  {
    CommittedPlus(db, batch, DeleteHistory(k));
    assert forall x :: x in s + [k] <==> x in s || x == k;
    assert Elements(s + [k]) == Elements(s) + {k};
    assert p.rows.history - Elements(s) - {k} == p.rows.history - Elements(s + [k]);
  }

  lemma {:induction false} WithoutHistoryNone(p: Db)
    ensures WithoutHistory(p, []) == p
  {
    assert p.rows.history - {} == p.rows.history;
    assert Elements<HistoryKey>([]) == {};
  }

  /** The last edits of a rollback: header, txid list and undo record go. */
  lemma {:induction false} ClosingCommits(db: Db, batch: seq<Edit>, undo: UndoBlock, k: UndoKey)
    requires k in db.undos && undo == db.undos[k]
    requires Committed(db, batch) == WithoutHistory(WithCreated(WithoutSpent(db, undo.created), undo.spent), undo.history)
    ensures Committed(db, batch + [DeleteHeader(k.height)] + [DeleteTxids(k.height)] + [DeleteUndo(k)]) ==
            RollbackDb(db, k.height, k.blockHash)
  {
    CommittedPlus(db, batch, DeleteHeader(k.height));
    CommittedPlus(db, batch + [DeleteHeader(k.height)], DeleteTxids(k.height));
    CommittedPlus(db, batch + [DeleteHeader(k.height)] + [DeleteTxids(k.height)], DeleteUndo(k));
  }

  /** The checkpoint, wherever it is, does not contradict the ledger. */
  ghost predicate NoClash(c: Checkpoint, s: Ledger) {
    s.Tip() >= s.start - 1 && (c.height == s.Tip() && c.hash != None ==> c.hash == Some(s.HashAt(s.Tip())))
  }

  /** The tip can be rolled back exactly when it is not below the lowest undo record. */
  lemma {:induction false} TipCanGo(db: Db, s: Ledger, hash: Option<Hash>)
    requires InStepWith(db, s) && Sized(s) && NoClash(db.checkpoint, s) && OurHash(db, s.Tip(), hash)
    ensures s.low <= s.Tip() <==> hash.Some? && UndoKey(s.Tip(), hash.value) in db.undos
    ensures s.low <= s.Tip() ==> hash == Some(s.HashAt(s.Tip()))
  {
    OurHashIsLedgers(db, s, s.Tip(), hash);
    assert Unfolds(db);
    UndoAtTip(db.undos, s, if hash.Some? then hash.value else s.anchor);
  }

  lemma {:induction false} UndoAtTip(undos: map<UndoKey, UndoBlock>, s: Ledger, hash: Hash)
    requires UndoSynced(undos, s.chain, s.start, s.low)
    ensures UndoKey(s.Tip(), hash) in undos <==> s.low <= s.Tip() && hash == s.HashAt(s.Tip())
  {
    var k := UndoKey(s.Tip(), hash);
    assert k in undos ==> KeyOnChain(k, s.chain, s.start, s.low);
    if s.low <= s.Tip() {
      TipUndo(undos, s.chain, s.start, s.low, |s.chain| - 1);
    }
  }

  lemma {:induction false} TipGone(db: Db, after: Db, s: Ledger)
    requires InStepWith(db, s) && Sized(s) && s.low <= s.Tip()
    requires UndoKey(s.Tip(), s.HashAt(s.Tip())) in db.undos && after == RollbackDb(db, s.Tip(), s.HashAt(s.Tip()))
    ensures InStepWith(after, s.Cut(s.Tip() - 1)) && Sized(s.Cut(s.Tip() - 1))
  {
    assert Unfolds(db);
    var n := |s.chain| - 1;
    OrderedLess(s.chain, s.start, n);
    RollbackKeepsSynced(db, after, s.chain, s.chain[..n], s.start, s.low, n, UndoKey(s.Tip(), s.HashAt(s.Tip())));
  }

  lemma {:induction false} CheckpointMoves(db: Db, c: Checkpoint, s: Ledger, anchor: Hash)
    requires InStepWith(db, s)
    ensures InStepWith(db.(checkpoint := c), s.(anchor := anchor))
  {
    assert Unfolds(db);
    CheckpointIsFree(db, c, s.chain, s.start, s.low);
  }

  lemma {:induction false} CutAgain(s: Ledger, height: int)
    requires s.start - 1 < height <= s.Tip()
    ensures s.Cut(height).Cut(height - 1) == s.Cut(height - 1) && s.Cut(height).Tip() == height
    ensures s.Cut(height).HashAt(height) == s.HashAt(height)
  {
    if height < s.Tip() {
      assert s.chain[..height + 1 - s.start][..height - s.start] == s.chain[..height - s.start];
    }
  }

  lemma {:induction false} RolledBackFurther(was: Db, s: Ledger, height: int, db: Db, after: Db)
    requires s.start <= height <= s.Tip() && RolledBack(was, s.chain, s.start, height + 1 - s.start) == Some(db)
    requires UndoKey(height, s.Cut(height).HashAt(height)) in db.undos
    requires after == RollbackDb(db, height, s.Cut(height).HashAt(height))
    ensures RolledBack(was, s.chain, s.start, height - s.start) == Some(after)
  {
    CutAgain(s, height);
    RolledBackMore(was, s.chain, s.start, height + 1 - s.start, db);
  }

  /** The store with every block above a height undone. */
  ghost predicate Undone(was: Db, s: Ledger, height: int, db: Db) {
    && s.low - 1 <= height <= s.Tip() && InStepWith(db, s.Cut(height)) && Sized(s.Cut(height))
    && db.checkpoint == was.checkpoint
    && s.start <= s.low && RolledBack(was, s.chain, s.start, height + 1 - s.start) == Some(db)
  }

  lemma {:induction false} UndoneFurther(was: Db, s: Ledger, height: int, db: Db, after: Db)
    requires Undone(was, s, height, db) && s.low <= height && NoClash(was.checkpoint, s.Cut(height)) && CheckpointFits(was.checkpoint, s)
    requires InStepWith(after, s.Cut(height).Cut(height - 1)) && Sized(s.Cut(height).Cut(height - 1))
    requires UndoKey(height, s.Cut(height).HashAt(height)) in db.undos
    requires after == RollbackDb(db, height, s.Cut(height).HashAt(height))
    ensures Undone(was, s, height - 1, after) && NoClash(was.checkpoint, s.Cut(height - 1)) && s.Cut(height - 1).Tip() == height - 1
  {
    CutAgain(s, height);
    RolledBackFurther(was, s, height, db, after);
  }

  /** Where a rollback to `target` leaves the ledger; at the very bottom Core supplies the anchor. */
  function Landed(core: Core, s: Ledger, target: int): Ledger {
    if s.start - 1 == target < s.Tip() && core.Has(target)
    then s.Cut(target).(anchor := core.blocks[target].header.hash)
    else s.Cut(target)
  }

  /** The store without the undo records more than `depth` below a height. */
  function Cleared(db: Db, height: int, depth: nat): Db {
    if height <= depth then db else PruneDb(db, height - depth)
  }

  datatype ReorgResult = ReorgResult(
    detected: bool,
    forkHeight: int,
    forkHash: Option<Hash>,
    rolledBack: int,
    currentHeight: int,
    currentHash: Option<Hash>)

  class ReorgHandler {
    const store: Database
    const mempool: MempoolOverlay
    const maxReorgDepth: nat

    constructor (store: Database, mempool: MempoolOverlay, maxReorgDepth: nat)
      ensures this.store == store && this.mempool == mempool && this.maxReorgDepth == maxReorgDepth
    {
      this.store, this.mempool, this.maxReorgDepth := store, mempool, maxReorgDepth;
    }

    method GetOurBlockHash(height: int) returns (hash: Option<Hash>)
      ensures OurHash(store.db, height, hash)
      ensures (store.db.checkpoint.height == height ==> store.db.checkpoint.hash == None) &&
              (exists k :: k in store.db.undos && k.height == height) ==>
                && hash.Some? && UndoKey(height, hash.value) in store.db.undos
                && forall k {:trigger k in store.db.undos} :: k in store.db.undos && k.height == height ==>
                     !Keys.Less(k.blockHash.bytes, hash.value.bytes)
    {
      var db := store.db;
      if db.checkpoint.height == height && db.checkpoint.hash != None {
        return db.checkpoint.hash;
      }
      if k :| k in db.undos && k.height == height {
        FirstUndoExists(db.undos, height, k);
        var first: UndoKey :| IsFirstUndo(db.undos, height, first);
        forall j | j in db.undos && j.height == height ensures !Keys.Less(j.blockHash.bytes, first.blockHash.bytes) {
          Keys.LessTotal(first.blockHash.bytes, j.blockHash.bytes);
        }
        assert first == UndoKey(height, first.blockHash);
        return Some(first.blockHash);
      }
      if height in db.rows.headers && |db.rows.headers[height].raw| == HEADER_LENGTH {
        return Some(db.rows.headers[height].hash);
      }
      hash := None;
    }

    /** Undoes one block in one batch, from its undo record. */
    method RollbackBlock(height: int, hash: Hash) returns (ok: bool)
      modifies store
      ensures ok <==> height >= 0 && UndoKey(height, hash) in old(store.db).undos
      ensures store.db == if ok then RollbackDb(old(store.db), height, hash) else old(store.db)
    {
      var k := UndoKey(height, hash);
      if height < 0 || k !in store.db.undos {
        return false;
      }
      var undo := store.db.undos[k];
      var batch := UndoBatch(store.db, undo);
      ClosingCommits(store.db, batch, undo, k);
      store.Commit(batch + [DeleteHeader(height)] + [DeleteTxids(height)] + [DeleteUndo(k)]);
      ok := true;
    }

    static method UndoBatch(ghost db: Db, undo: UndoBlock) returns (batch: seq<Edit>)
      ensures Committed(db, batch) ==
              WithoutHistory(WithCreated(WithoutSpent(db, undo.created), undo.spent), undo.history)
    {
      batch := DropCreated(db, db, [], undo.created);
      batch := RestoreSpent(db, WithoutSpent(db, undo.created), batch, undo.spent);
      batch := DropHistory(db, WithCreated(WithoutSpent(db, undo.created), undo.spent), batch, undo.history);
    }

    static method DropCreated(ghost db: Db, ghost p: Db, batch0: seq<Edit>, created: seq<UndoOutput>) returns (batch: seq<Edit>)
      requires Committed(db, batch0) == p
      ensures Committed(db, batch) == WithoutSpent(p, created)
    {
      batch := batch0;
      WithoutSpentNone(p);
      for i := 0 to |created|
        invariant Committed(db, batch) == WithoutSpent(p, created[..i])
      {
        var u := created[i];
        WithoutSpentStep(db, p, batch, created[..i], u);
        assert created[..i + 1] == created[..i] + [u];
        batch := batch + [DeleteUtxo(u.Key())] + [DeleteOutpoint(u.out)];
      }
      assert created[..|created|] == created;
    }

    static method RestoreSpent(ghost db: Db, ghost p: Db, batch0: seq<Edit>, spent: seq<UndoOutput>) returns (batch: seq<Edit>)
      requires Committed(db, batch0) == p
      ensures Committed(db, batch) == WithCreated(p, spent)
    {
      batch := batch0;
      for i := 0 to |spent|
        invariant Committed(db, batch) == WithCreated(p, spent[..i])
      {
        var u := spent[i];
        WithCreatedStep(db, p, batch, spent[..i], u);
        assert spent[..i + 1] == spent[..i] + [u];
        batch := batch + [PutUtxo(u.Key(), u.Row())] + [PutOutpoint(u.out, u.scripthash)];
      }
      assert spent[..|spent|] == spent;
    }

    static method DropHistory(ghost db: Db, ghost p: Db, batch0: seq<Edit>, history: seq<HistoryKey>) returns (batch: seq<Edit>)
      requires Committed(db, batch0) == p
      ensures Committed(db, batch) == WithoutHistory(p, history)
    {
      batch := batch0;
      WithoutHistoryNone(p);
      for i := 0 to |history|
        invariant Committed(db, batch) == WithoutHistory(p, history[..i])
      {
        WithoutHistoryStep(db, p, batch, history[..i], history[i]);
        assert history[..i + 1] == history[..i] + [history[i]];
        batch := batch + [DeleteHistory(history[i])];
      }
      assert history[..|history|] == history;
    }

    method RollbackTip(height: int, ghost s: Ledger) returns (done: bool)
      requires InStepWith(store.db, s) && Sized(s) && NoClash(store.db.checkpoint, s) && height == s.Tip()
      modifies store
      ensures done <==> s.low <= height
      ensures done ==> InStepWith(store.db, s.Cut(height - 1)) && Sized(s.Cut(height - 1))
      ensures done ==> UndoKey(height, s.HashAt(height)) in old(store.db).undos &&
                       store.db == RollbackDb(old(store.db), height, s.HashAt(height))
      ensures !done ==> store.db == old(store.db)
      ensures store.db.checkpoint == old(store.db).checkpoint
    {
      var hash := GetOurBlockHash(height);
      TipCanGo(store.db, s, hash);
      if hash == None {
        return false;
      }
      done := RollbackBlock(height, hash.value);
      if done {
        TipGone(old(store.db), store.db, s);
      }
    }

    /** Undoes blocks from the tip down to just above `target`, one batch each; the checkpoint stays where it was. */
    method RollbackBlocks(target: int, ghost s: Ledger) returns (ok: bool, n: nat, ghost s': Ledger)
      requires Tracks(store.db, s) && target <= s.Tip()
      modifies store
      ensures ok <==> target == s.Tip() || target >= s.low - 1
      ensures s' == s.Cut(if ok then target else s.low - 1) && n == s.Tip() - s'.Tip()
      ensures InStepWith(store.db, s') && Sized(s') && store.db.checkpoint == old(store.db).checkpoint
      ensures RolledBack(old(store.db), s.chain, s.start, |s'.chain|) == Some(store.db)
    {
      var height := store.db.checkpoint.height;
      n, s' := 0, s;
      while height > target
        invariant target <= height && s' == s.Cut(height) && s'.Tip() == height && n == s.Tip() - height
        invariant Undone(old(store.db), s, height, store.db) && NoClash(store.db.checkpoint, s')
        decreases height
      {
        ghost var db := store.db;
        var done := RollbackTip(height, s');
        if !done {
          return false, n, s';
        }
        UndoneFurther(old(store.db), s, height, db, store.db);
        s' := s.Cut(height - 1);
        height, n := height - 1, n + 1;
      }
      ok := true;
    }

    /** Undoes blocks above `target` and then, last of all, moves the checkpoint there without its start height. */
    method RollbackToHeight(core: Core, target: int, ghost s: Ledger) returns (ok: bool, n: nat, ghost s': Ledger)
      requires Tracks(store.db, s) && target <= s.Tip()
      modifies store
      ensures ok <==> target == s.Tip() || (s.low - 1 <= target && (s.start <= target || core.Has(target)))
      ensures ok ==> s' == Landed(core, s, target) && n == s.Tip() - target
      ensures ok ==> Tracks(store.db, s') && store.db.checkpoint.startHeight == 0
      ensures !ok ==> s' == s.Cut(if target < s.low - 1 then s.low - 1 else target)
      ensures !ok ==> InStepWith(store.db, s') && Sized(s') && store.db.checkpoint == old(store.db).checkpoint
      ensures RolledBack(old(store.db), s.chain, s.start, |s'.chain|) == Some(store.db.(checkpoint := old(store.db).checkpoint))
    {
      ok, n, s' := RollbackBlocks(target, s);
      if !ok {
        return;
      }
      var hash := GetOurBlockHash(target);
      OurHashIsLedgers(store.db, s', target, hash);
      if hash == None {
        hash := core.HashAt(target);
        if hash == None {
          return false, n, s';
        }
      }
      CheckpointMoves(store.db, Checkpoint(target, hash, 0), s', Landed(core, s, target).anchor);
      s' := Landed(core, s, target);
      store.SaveCheckpoint(Checkpoint(target, hash, 0));
    }

    /** Searches downwards from below the tip for a block that Core has too. */
    method FindForkPoint(core: Core, tip: int, ghost s: Ledger) returns (height: int, hash: Hash)
      requires Tracks(store.db, s) && tip == s.Tip() && core.Has(tip)
      ensures height == Fork(core, s, Boundary(store.db.checkpoint), maxReorgDepth)
      ensures core.HashAt(height) == Some(hash)
    {
      var boundary := Boundary(store.db.checkpoint);
      height := tip - 1;
      while height >= boundary && tip - height <= maxReorgDepth
        invariant boundary - 1 <= height < tip || (tip <= boundary && height == tip - 1)
        invariant ForkBelow(core, s, boundary, maxReorgDepth, height) == Fork(core, s, boundary, maxReorgDepth)
        decreases height
      {
        var ours := GetOurBlockHash(height);
        OurHashIsLedgers(store.db, s, height, ours);
        if ours != None && core.HashAt(height) == ours {
          return height, ours.value;
        }
        height := height - 1;
      }
      height := boundary - 1;
      hash := core.blocks[height].header.hash;
    }

    /** The whole reorganisation: nothing happens while the checkpoint is on Core's chain. */
    method CheckAndHandle(core: Core, ghost s: Ledger) returns (r: Option<ReorgResult>, ghost s': Ledger)
      requires mempool.Valid() && mempool.store == store
      requires Tracks(store.db, s) || Unanchored(store.db)
      modifies store, mempool
      ensures mempool.Valid() && mempool.cells <= old(mempool.cells)
      ensures Unanchored(old(store.db)) ==>
                r == Some(ReorgResult(false, 0, None, 0, 0, None)) && s' == s
      ensures !Unanchored(old(store.db)) ==> Handled(core, s, Forked(core, s, old(store.db), maxReorgDepth), maxReorgDepth, r, s')
      ensures r.Some? && !r.value.detected ==> store.db == old(store.db) && mempool.view == old(mempool.view)
      ensures r.Some? && r.value.detected ==>
                Tracks(store.db, s') && store.db.checkpoint.startHeight == 0 && mempool.view == EMPTY_OVERLAY &&
                r.value.currentHash.Some?
      ensures r == None ==> InStepWith(store.db, s') && store.db.checkpoint == old(store.db).checkpoint
      ensures r == None ==> mempool.view == old(mempool.view)
      ensures RolledBack(old(store.db), s.chain, s.start, |s'.chain|) == Some(store.db.(checkpoint := old(store.db).checkpoint))
    {
      s' := s;
      var checkpoint := store.db.checkpoint;
      if checkpoint.height == 0 && checkpoint.hash == None {
        return Some(ReorgResult(false, 0, None, 0, 0, None)), s';
      }
      if checkpoint.hash == None || !core.Has(checkpoint.height) {
        return None, s';
      }
      if core.HashAt(checkpoint.height) == checkpoint.hash {
        return Some(ReorgResult(false, 0, None, 0, checkpoint.height, checkpoint.hash)), s';
      }
      var fork, forkHash := FindForkPoint(core, checkpoint.height, s);
      ForkInRange(core, s, checkpoint, maxReorgDepth);
      if checkpoint.height - fork > maxReorgDepth && fork > 0 {
        return None, s';
      }
      var ok, n;
      ok, n, s' := RollbackToHeight(core, fork, s);
      if !ok {
        return None, s';
      }
      mempool.Clear();
      r := Some(ReorgResult(true, fork, Some(forkHash), n, fork, Some(forkHash)));
    }

    /** Drops the undo records more than the maximal depth below the tip. */
    method PruneOldUndoData(height: int) returns (pruned: nat)
      modifies store
      ensures store.db == Cleared(old(store.db), height, maxReorgDepth)
      ensures pruned == |old(store.db).undos.Keys - store.db.undos.Keys|
    {
      var before := height - maxReorgDepth;
      NothingPruned(store.db);
      if height <= maxReorgDepth {
        return 0;
      }
      var batch;
      ghost var gone;
      batch, pruned, gone := PruneBatch(store.db, before);
      PruneGone(store.db, before, gone);
      if pruned > 0 {
        store.Commit(batch);
      }
    }

    /** The batch that deletes every undo record below a height, and how many there are. */
    static method PruneBatch(db: Db, before: int) returns (batch: seq<Edit>, pruned: nat, ghost gone: set<UndoKey>)
      ensures forall k :: k in gone <==> k in db.undos && k.height < before
      ensures Committed(db, batch) == db.(undos := db.undos - gone) && pruned == |gone|
    {
      batch, pruned, gone := [], 0, {};
      var todo := db.undos.Keys;
      assert db.undos - {} == db.undos;
      while todo != {}
        invariant todo <= db.undos.Keys
        invariant forall k :: k in gone <==> k in db.undos && k !in todo && k.height < before
        invariant Committed(db, batch) == db.(undos := db.undos - gone) && pruned == |gone|
        decreases todo
      {
        var k :| k in todo;
        if k.height < before {
          UndoGone(db, batch, gone, k);
          batch, pruned, gone := batch + [DeleteUndo(k)], pruned + 1, gone + {k};
        }
        todo := todo - {k};
      }
    }
  }

  lemma {:induction false} UndoGone(db: Db, batch: seq<Edit>, gone: set<UndoKey>, k: UndoKey)
    requires Committed(db, batch) == db.(undos := db.undos - gone)
    ensures Committed(db, batch + [DeleteUndo(k)]) == db.(undos := db.undos - (gone + {k}))
  {
    CommittedPlus(db, batch, DeleteUndo(k));
    MapMinus(db.undos, gone, k);
  }

  lemma {:induction false} PruneGone(db: Db, before: int, gone: set<UndoKey>)
    requires forall k :: k in gone <==> k in db.undos && k.height < before
    ensures PruneDb(db, before) == db.(undos := db.undos - gone) && db.undos.Keys - (db.undos - gone).Keys == gone
    ensures gone == {} ==> PruneDb(db, before) == db
  {
    assert PruneDb(db, before).undos == db.undos - gone;
    assert gone == {} ==> db.undos - gone == db.undos;
  }

  lemma {:induction false} NothingPruned(db: Db)
    ensures db.undos.Keys - db.undos.Keys == {}
  {
  }
}
