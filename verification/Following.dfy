/** Whole runs of the chain manager against a Core whose best chain changes from call to call. */
module Following {
  import opened Types
  import opened Store
  import opened Replay
  import opened Overlay
  import opened Indexer
  import opened Reorg
  import opened Manager

  // ----- the blocks there are

  /** A block for each hash. */
  type Blocks = map<Hash, Block>

  ghost predicate BlockOf(w: Blocks, b: Block) {
    b.header.hash in w && w[b.header.hash] == b
  }

  ghost predicate IsPath(w: Blocks, path: seq<Block>) {
    && (forall i :: 0 <= i < |path| ==> BlockOf(w, path[i]))
    && (forall i :: 0 < i < |path| ==> path[i].header.prev == path[i - 1].header.hash)
  }

  /** Consensus: along hash-linked blocks no transaction id comes twice. */
  ghost predicate NoneTwice(w: Blocks) {
    forall path: seq<Block> {:trigger IsPath(w, path)} :: IsPath(w, path) && path != [] ==>
      Fresh(path[|path| - 1].txs, CoreTxids(path, 0, |path| - 1))
  }

  /** A best chain whose blocks from the start height on are among them. */
  ghost predicate Admits(w: Blocks, core: Core, start: int) {
    && Linked(core) && (core.Has(0) ==> core.blocks[0].header.hash != ZERO_HASH)
    && (forall h :: 0 <= h < |core.blocks| ==> |core.blocks[h].header.raw| == HEADER_LENGTH)
    && (forall h :: start <= h < |core.blocks| && 0 <= h ==> BlockOf(w, core.blocks[h]))
  }

  ghost predicate LedgerOf(w: Blocks, s: Ledger) {
    forall i :: 0 <= i < |s.chain| ==> BlockOf(w, s.chain[i].block)
  }

  // ----- what that means for the manager's preconditions

  lemma {:induction false} TxidsShift(blocks: seq<Block>, path: seq<Block>, from: nat, k: nat)
    requires k <= |path| && from + k <= |blocks| && forall i :: 0 <= i < k ==> path[i] == blocks[from + i]
    ensures CoreTxids(path, 0, k) == CoreTxids(blocks, from, from + k)
  {
    if k > 0 {
      TxidsShift(blocks, path, from, k - 1);
    }
  }

  lemma {:induction false} TxidsOfChain(chain: seq<Entry>, path: seq<Block>, k: nat)
    requires k <= |path| && k <= |chain| && forall i :: 0 <= i < k ==> path[i] == chain[i].block
    ensures CoreTxids(path, 0, k) == ChainTxids(chain, k)
  {
    if k > 0 {
      TxidsOfChain(chain, path, k - 1);
    }
  }

  lemma {:induction false} OnCorePath(w: Blocks, core: Core, start: int, h: int, b: Block) returns (path: seq<Block>)
    requires Admits(w, core, start) && start >= 1 && BlockOf(w, b) && start - 1 <= h < |core.blocks|
    requires h >= start ==> b.header.prev == core.blocks[h].header.hash
    ensures IsPath(w, path) && |path| == h + 2 - start && path[h + 1 - start] == b
    ensures forall i :: 0 <= i < h + 1 - start ==> path[i] == core.blocks[start + i]
  {
    path := seq(h + 2 - start, i requires 0 <= i < h + 2 - start => if i <= h - start then core.blocks[start + i] else b);
    forall i | 0 < i < |path| ensures path[i].header.prev == path[i - 1].header.hash {
      assert path[i - 1] == core.blocks[start + i - 1];
      assert i <= h - start ==> path[i] == core.blocks[start + i];
    }
    forall i | 0 <= i < |path| ensures BlockOf(w, path[i]) {
      assert i <= h - start ==> path[i] == core.blocks[start + i];
    }
  }

  lemma {:induction false} NewOnCore(w: Blocks, core: Core, start: int, h: int, b: Block)
    requires NoneTwice(w) && Admits(w, core, start) && start >= 1 && BlockOf(w, b) && start - 1 <= h < |core.blocks|
    requires h >= start ==> b.header.prev == core.blocks[h].header.hash
    ensures Fresh(b.txs, CoreTxids(core.blocks, start, h + 1))
  {
    var path := OnCorePath(w, core, start, h, b);
    TxidsShift(core.blocks, path, start, h + 1 - start);
  }

  lemma {:induction false} SoundOf(w: Blocks, core: Core, start: int)
    requires NoneTwice(w) && Admits(w, core, start) && start >= 1
    ensures Sound(core, start)
  {
    forall h | start <= h < |core.blocks| ensures Fresh(core.blocks[h].txs, CoreTxids(core.blocks, start, h)) {
      NewOnCore(w, core, start, h - 1, core.blocks[h]);
    }
  }

  lemma {:induction false} NewOnLedger(w: Blocks, s: Ledger, b: Block)
    requires NoneTwice(w) && LedgerOf(w, s) && LedgerLinked(s) && BlockOf(w, b)
    requires s.chain != [] ==> b.header.prev == s.HashAt(s.Tip())
    ensures Fresh(b.txs, ChainTxids(s.chain, |s.chain|))
  {
    var path := seq(|s.chain|, i requires 0 <= i < |s.chain| => s.chain[i].block) + [b];
    assert IsPath(w, path);
    TxidsOfChain(s.chain, path, |s.chain|);
  }

  /** Memory, store and ledger are together. */
  ghost predicate Standing(m: Node, s: Ledger) {
    Tracks(m.db, s) && MemoryAt(s, m.height, m.hash) && LedgerLinked(s)
  }

  /** Any announcement may be processed, against any best chain. */
  lemma {:induction false} MayProcess(w: Blocks, core: Core, b: Block, m: Node, s: Ledger)
    requires NoneTwice(w) && Admits(w, core, s.start) && LedgerOf(w, s) && BlockOf(w, b) && Standing(m, s)
    ensures Comparable(core, s) && NewWhereItConnects(core, s, m.hash, b)
  {
    SoundOf(w, core, s.start);
    if b.header.prev == m.hash {
      NewOnLedger(w, s, b);
    }
    forall h | 0 <= h < |core.blocks| && core.blocks[h].header.hash == b.header.prev
      ensures Fresh(b.txs, CoreTxids(core.blocks, s.start, h + 1))
    {
      NewAbove(w, core, s.start, h, b);
    }
  }

  lemma {:induction false} NewAbove(w: Blocks, core: Core, start: int, h: nat, b: Block)
    requires NoneTwice(w) && Admits(w, core, start) && start >= 1 && BlockOf(w, b) && h < |core.blocks|
    requires b.header.prev == core.blocks[h].header.hash
    ensures Fresh(b.txs, CoreTxids(core.blocks, start, h + 1))
  {
    if h >= start {
      NewOnCore(w, core, start, h, b);
    } else {
      assert IsPath(w, [b]);
      NoneBelow(core.blocks, start, h + 1);
    }
  }

  lemma {:induction false} NoneBelow(blocks: seq<Block>, start: int, n: nat)
    requires n <= |blocks| && n <= start
    ensures CoreTxids(blocks, start, n) == {}
  {
  }

  // ----- one call

  datatype Call =
    | Announce(core: Core, b: Block, known: Option<int>)   // a block, at the height Core knows it at
    | CatchUp(core: Core, target: int)
    | Prune

  ghost predicate Offered(w: Blocks, start: int, call: Call) {
    match call
    case Announce(core, b, _) => Admits(w, core, start) && BlockOf(w, b)
    case CatchUp(core, _) => Admits(w, core, start)
    case Prune => true
  }

  /** What the contracts of the three methods say. */
  ghost predicate Performs(call: Call, s: Ledger, depth: nat, m: Node, m': Node, s': Ledger) {
    match call
    case Announce(core, b, known) => exists height :: Processed(core, b, known, s, depth, m, m', s', height)
    case CatchUp(core, target) => CaughtUp(core, target, s, depth, m, m', s')
    case Prune => Pruned(s, depth, m, m', s')
  }

  /** A reorganisation is looked for, and an undo record it would need is missing part of the way down. */
  ghost predicate Breaks(call: Call, s: Ledger, depth: nat, m: Node) {
    match call
    case Announce(core, b, known) =>
      && b.header.prev != m.hash && known.Some? && Halfway(core, s, Forked(core, s, m.db, depth), depth)
      && (known.value <= s.Tip() + 1 || (!Continues(core, m.height, m.hash) && core.Has(s.Tip() + 1)))
    case CatchUp(core, target) =>
      && target > s.Tip() && !Continues(core, m.height, m.hash) && core.Has(s.Tip() + 1)
      && Halfway(core, s, Forked(core, s, m.db, depth), depth)
    case Prune => false
  }

  /** After a call memory, store and ledger are together again, unless it broke off. */
  ghost predicate Outcome(w: Blocks, broken: bool, m': Node, s': Ledger) {
    if broken then !Standing(m', s') else Standing(m', s') && LedgerOf(w, s')
  }

  lemma {:induction false} SameIsDrawn(w: Blocks, core: Core, s: Ledger)
    requires Admits(w, core, s.start) && SameAsCore(core, s) && s.start >= 1
    ensures LedgerOf(w, s) && LedgerLinked(s)
  {
    SameIsLinked(core, s);
    forall i | 0 <= i < |s.chain| ensures BlockOf(w, s.chain[i].block) {
      assert SameBlock(core, s, i);
    }
  }

  lemma {:induction false} StoppedKeeps(w: Blocks, core: Core, s: Ledger, depth: nat, m: Node, m': Node, s': Ledger)
    requires Standing(m, s) && LedgerOf(w, s) && Stopped(core, s, depth, m, m', s')
    ensures Outcome(w, Halfway(core, s, Forked(core, s, m.db, depth), depth), m', s')
  {
  }

  lemma {:induction false} HalfwayIsStuck(core: Core, s: Ledger, depth: nat, db: Db)
    requires Halfway(core, s, Forked(core, s, db, depth), depth)
    ensures !Recovers(core, s, db, depth)
  {
  }

  lemma {:induction false} ReorganisedKeeps(w: Blocks, core: Core, s: Ledger, depth: nat, m: Node, m': Node, s': Ledger)
    requires Standing(m, s) && LedgerOf(w, s) && Comparable(core, s) && Admits(w, core, s.start)
    requires Reorganised(core, s, depth, m, m', s')
    ensures Outcome(w, Halfway(core, s, Forked(core, s, m.db, depth), depth), m', s')
  {
    if core.Has(s.Tip()) && Recovers(core, s, m.db, depth) {
      ReorganisedSame(core, s, depth, m, m', s');
      ReorganisedInStep(core, s, depth, m, m', s');
      SameIsDrawn(w, core, s');
    } else {
      StoppedKeeps(w, core, s, depth, m, m', s');
    }
  }

  lemma {:induction false} ReachedKeeps(w: Blocks, core: Core, base: Ledger, top: int, ov: OverlayView, m': Node, s': Ledger)
    requires Admits(w, core, s'.start) && Reached(core, base, top, ov, m', s')
    ensures Outcome(w, false, m', s')
  {
    ReachedSame(core, base, top, ov, m', s');
    assert InStepWith(m'.db, s');
    SameIsDrawn(w, core, s');
  }

  lemma {:induction false} CaughtUpKeeps(w: Blocks, core: Core, target: int, s: Ledger, depth: nat, m: Node, m': Node, s': Ledger)
    requires Standing(m, s) && LedgerOf(w, s) && Admits(w, core, s.start) && CaughtUp(core, target, s, depth, m, m', s')
    ensures Outcome(w, Breaks(CatchUp(core, target), s, depth, m), m', s')
  {
    if target > s.Tip() && Continues(core, m.height, m.hash) {
      ReachedKeeps(w, core, s, Top(core, target), m.overlay, m', s');
    } else if target > s.Tip() && core.Has(s.Tip() + 1) {
      if Recovers(core, s, m.db, depth) {
        ReachedKeeps(w, core, Based(core, s, m.db, depth), Top(core, target), if OnCore(core, s) then m.overlay else EMPTY_OVERLAY, m', s');
      } else {
        StoppedKeeps(w, core, s, depth, m, m', s');
      }
    }
  }

  lemma {:induction false} AppendedKeeps(w: Blocks, core: Core, b: Block, s: Ledger, m: Node, m': Node, s': Ledger, height: Option<int>)
    requires Standing(m, s) && LedgerOf(w, s) && BlockOf(w, b) && b.header.prev == m.hash && Appended(b, s, m, m', s', height)
    ensures Outcome(w, false, m', s')
  {
    AppendedMeans(core, b, s, m, m', s', height);
  }

  lemma {:induction false} RetriedKeeps(w: Blocks, core: Core, b: Block, known: int, s: Ledger, depth: nat, m: Node, mid: Node, t: Ledger,
                                        m': Node, s': Ledger, height: Option<int>)
    requires Standing(m, s) && LedgerOf(w, s) && Admits(w, core, s.start) && BlockOf(w, b) && known > s.Tip() + 1
    requires Retried(core, b, known, s, depth, m, mid, t, m', s', height)
    ensures Outcome(w, Breaks(CatchUp(core, known - 1), s, depth, m), m', s')
  {
    CaughtUpKeeps(w, core, known - 1, s, depth, m, mid, t);
    if CatchesUp(core, known - 1, s, depth, m) && b.header.prev == mid.hash {
      AppendedKeeps(w, core, b, t, mid, m', s', height);
    }
  }

  lemma {:induction false} ProcessedKeeps(w: Blocks, core: Core, b: Block, known: Option<int>, s: Ledger, depth: nat, m: Node,
                                          m': Node, s': Ledger, height: Option<int>)
    requires Standing(m, s) && LedgerOf(w, s) && Admits(w, core, s.start) && BlockOf(w, b) && Comparable(core, s)
    requires Processed(core, b, known, s, depth, m, m', s', height)
    ensures Outcome(w, Breaks(Announce(core, b, known), s, depth, m), m', s')
  {
    if b.header.prev == m.hash {
      AppendedKeeps(w, core, b, s, m, m', s', height);
    } else if known.Some? && known.value > s.Tip() + 1 {
      var mid, t :| Retried(core, b, known.value, s, depth, m, mid, t, m', s', height);
      RetriedKeeps(w, core, b, known.value, s, depth, m, mid, t, m', s', height);
    } else if known.Some? {
      ReorganisedKeeps(w, core, s, depth, m, m', s');
    }
  }

  lemma {:induction false} PrunedStands(w: Blocks, s: Ledger, depth: nat, m: Node, m': Node, s': Ledger)
    requires Standing(m, s) && LedgerOf(w, s) && Pruned(s, depth, m, m', s')
    ensures Outcome(w, false, m', s')
  {
    if m.height > depth {
      var t := PrunedKeeps(m.db, s, m.height - depth);
    }
  }

  /** The exact condition for one call: all is together again if and only if it did not break off. */
  lemma {:induction false} CallKeeps(w: Blocks, call: Call, s: Ledger, depth: nat, m: Node, m': Node, s': Ledger)
    requires NoneTwice(w) && Standing(m, s) && LedgerOf(w, s) && Offered(w, s.start, call) && Performs(call, s, depth, m, m', s')
    ensures Outcome(w, Breaks(call, s, depth, m), m', s') && s'.start == s.start
  {
    match call {
      case Announce(core, b, known) =>
        var height :| Processed(core, b, known, s, depth, m, m', s', height);
        MayProcess(w, core, b, m, s);
        ProcessedKeeps(w, core, b, known, s, depth, m, m', s', height);
        ProcessedMeans(core, b, known, s, depth, m, m', s', height);
      case CatchUp(core, target) =>
        CaughtUpKeeps(w, core, target, s, depth, m, m', s');
        CaughtUpInStep(core, target, s, depth, m, m', s');
      case Prune => PrunedStands(w, s, depth, m, m', s');
    }
  }

  // ----- every run

  ghost predicate IsSession(calls: seq<Call>, depth: nat, nodes: seq<Node>, ledgers: seq<Ledger>) {
    && |nodes| == |ledgers| == |calls| + 1
    && forall i {:trigger calls[i]} :: 0 <= i < |calls| ==>
         Performs(calls[i], ledgers[i], depth, nodes[i], nodes[i + 1], ledgers[i + 1])
  }

  /** No call before the n-th broke off. */
  ghost predicate Unbroken(calls: seq<Call>, depth: nat, nodes: seq<Node>, ledgers: seq<Ledger>, n: nat)
    requires n <= |calls| && |calls| < |nodes| && |calls| < |ledgers|
  {
    forall i {:trigger calls[i]} :: 0 <= i < n ==> !Breaks(calls[i], ledgers[i], depth, nodes[i])
  }

  ghost predicate AllStand(nodes: seq<Node>, ledgers: seq<Ledger>, n: nat)
    requires n < |nodes| && n < |ledgers|
  {
    forall i {:trigger nodes[i]} :: 0 <= i <= n ==> Standing(nodes[i], ledgers[i])
  }

  lemma {:induction false} UnbrokenStands(w: Blocks, calls: seq<Call>, depth: nat, nodes: seq<Node>, ledgers: seq<Ledger>, n: nat)
    requires NoneTwice(w) && IsSession(calls, depth, nodes, ledgers) && n <= |calls| && Unbroken(calls, depth, nodes, ledgers, n)
    requires Standing(nodes[0], ledgers[0]) && LedgerOf(w, ledgers[0])
    requires forall i {:trigger calls[i]} :: 0 <= i < |calls| ==> Offered(w, ledgers[0].start, calls[i])
    ensures Standing(nodes[n], ledgers[n]) && LedgerOf(w, ledgers[n]) && ledgers[n].start == ledgers[0].start
  {
    if n > 0 {
      UnbrokenStands(w, calls, depth, nodes, ledgers, n - 1);
      CallKeeps(w, calls[n - 1], ledgers[n - 1], depth, nodes[n - 1], nodes[n], ledgers[n]);
    }
  }

  /** Over every sequence of announcements, catch-ups and prunings, against best chains that change from one to the next,
      store, memory and ledger stay together exactly as long as no reorganisation breaks off for want of an undo record. */
  lemma {:induction false} RunStands(w: Blocks, calls: seq<Call>, depth: nat, nodes: seq<Node>, ledgers: seq<Ledger>, n: nat)
    requires NoneTwice(w) && IsSession(calls, depth, nodes, ledgers) && n <= |calls|
    requires Standing(nodes[0], ledgers[0]) && LedgerOf(w, ledgers[0])
    requires forall i {:trigger calls[i]} :: 0 <= i < |calls| ==> Offered(w, ledgers[0].start, calls[i])
    ensures AllStand(nodes, ledgers, n) <==> Unbroken(calls, depth, nodes, ledgers, n)
  {
    if n > 0 {
      RunStands(w, calls, depth, nodes, ledgers, n - 1);
      if Unbroken(calls, depth, nodes, ledgers, n - 1) {
        UnbrokenStands(w, calls, depth, nodes, ledgers, n - 1);
        CallKeeps(w, calls[n - 1], ledgers[n - 1], depth, nodes[n - 1], nodes[n], ledgers[n]);
        LastOne(calls, depth, nodes, ledgers, n);
      }
    }
  }

  lemma {:induction false} LastOne(calls: seq<Call>, depth: nat, nodes: seq<Node>, ledgers: seq<Ledger>, n: nat)
    requires 0 < n <= |calls| && |calls| < |nodes| && |calls| < |ledgers|
    requires AllStand(nodes, ledgers, n - 1) && Unbroken(calls, depth, nodes, ledgers, n - 1)
    requires Standing(nodes[n], ledgers[n]) <==> !Breaks(calls[n - 1], ledgers[n - 1], depth, nodes[n - 1])
    ensures AllStand(nodes, ledgers, n) <==> Unbroken(calls, depth, nodes, ledgers, n)
  {
  }

  // ----- one retry is enough

  /** A hash stands for one height. */
  ghost predicate OneHeight(core: Core, height: int, hash: Hash) {
    forall h {:trigger core.HashAt(h)} :: core.HashAt(h) == Some(hash) ==> h == height
  }

  ghost predicate NoneRepeats(core: Core) {
    forall h, k :: 0 <= h < k < |core.blocks| ==> core.blocks[h].header.hash != core.blocks[k].header.hash
  }

  /** Memory, ledger and Core agree up to the ledger's tip. */
  ghost predicate Following(core: Core, m: Node, s: Ledger) {
    Standing(m, s) && SameAsCore(core, s) && Continues(core, m.height, m.hash)
  }

  /** A block of Core's on top of a ledger that follows it. */
  lemma {:induction false} AppendedFollows(core: Core, h: int, s: Ledger, m: Node, m': Node, s': Ledger, height: Option<int>)
    requires Sound(core, s.start) && Following(core, m, s) && core.Has(h) && h == s.Tip() + 1
    requires Appended(core.blocks[h], s, m, m', s', height)
    ensures height == Some(h) && Following(core, m', s') && s'.Tip() == h
  {
    GrownSame(core, s, s'.chain[|s'.chain| - 1]);
    SameIsLinked(core, s');
  }

  /** A ledger that follows Core takes any block of Core's at or above its start with one call. */
  lemma {:induction false} FollowerTakes(core: Core, h: int, s: Ledger, depth: nat, m: Node, m': Node, s': Ledger, height: Option<int>)
    requires Sound(core, s.start) && Following(core, m, s) && core.Has(h) && h >= s.start && NoneRepeats(core)
    requires Processed(core, core.blocks[h], Some(h), s, depth, m, m', s', height)
    ensures Following(core, m', s') && h <= s'.Tip()
  {
    var b := core.blocks[h];
    assert core.HashAt(h - 1) == Some(b.header.prev);
    if b.header.prev == m.hash {
      AppendedFollows(core, h, s, m, m', s', height);
    } else if h > s.Tip() + 1 {
      FollowerCatchesUp(core, h, s, depth, m, m', s', height);
    } else {
      assert OnCore(core, s);
    }
  }

  lemma {:induction false} FollowerCatchesUp(core: Core, h: int, s: Ledger, depth: nat, m: Node, m': Node, s': Ledger, height: Option<int>)
    requires Sound(core, s.start) && Following(core, m, s) && core.Has(h) && h > s.Tip() + 1
    requires exists mid, t :: Retried(core, core.blocks[h], h, s, depth, m, mid, t, m', s', height)
    ensures Following(core, m', s') && s'.Tip() == h
  {
    var mid, t :| Retried(core, core.blocks[h], h, s, depth, m, mid, t, m', s', height);
    CaughtUpMeans(core, h - 1, s, depth, m, mid, t);
    assert core.HashAt(h - 1) == Some(core.blocks[h].header.prev);
    SameIsLinked(core, t);
    AppendedFollows(core, h, t, mid, m', s', height);
  }

  lemma {:induction false} RecoversFollows(core: Core, s: Ledger, depth: nat, m: Node, m': Node, s': Ledger)
    requires Standing(m, s) && Comparable(core, s) && core.Has(s.Tip()) && Recovers(core, s, m.db, depth)
    requires Reorganised(core, s, depth, m, m', s')
    ensures Following(core, m', s')
  {
    ReorganisedSame(core, s, depth, m, m', s');
    ReorganisedInStep(core, s, depth, m, m', s');
  }

  /** Memory is on Core's chain, or a reorganisation can get there. */
  ghost predicate Recoverable(core: Core, s: Ledger, depth: nat, m: Node) {
    Continues(core, m.height, m.hash) || (core.Has(s.Tip()) && Recovers(core, s, m.db, depth))
  }

  lemma {:induction false} FirstCallFollows(core: Core, h: int, s: Ledger, depth: nat, m: Node, m': Node, s': Ledger, height: Option<int>)
    requires Standing(m, s) && Comparable(core, s) && core.Has(h) && h >= s.start && Recoverable(core, s, depth, m)
    requires OneHeight(core, m.height, m.hash) && NoneRepeats(core)
    requires Processed(core, core.blocks[h], Some(h), s, depth, m, m', s', height)
    ensures Following(core, m', s')
  {
    var b := core.blocks[h];
    assert core.HashAt(h - 1) == Some(b.header.prev);
    if Continues(core, m.height, m.hash) {
      OnCoreSame(core, s);
      FollowerTakes(core, h, s, depth, m, m', s', height);
    } else if h > s.Tip() + 1 {
      CatchesUpFollows(core, h, s, depth, m, m', s', height);
    } else {
      RecoversFollows(core, s, depth, m, m', s');
    }
  }

  lemma {:induction false} FirstCallFails(core: Core, h: int, s: Ledger, depth: nat, m: Node, m': Node, s': Ledger, height: Option<int>)
    requires Standing(m, s) && Comparable(core, s) && core.Has(h) && h >= s.start && !Recoverable(core, s, depth, m)
    requires OneHeight(core, m.height, m.hash)
    requires Processed(core, core.blocks[h], Some(h), s, depth, m, m', s', height)
    ensures height == None && Stopped(core, s, depth, m, m', s')
  {
    assert core.HashAt(h - 1) == Some(core.blocks[h].header.prev);
    if h > s.Tip() + 1 {
      var mid, t :| Retried(core, core.blocks[h], h, s, depth, m, mid, t, m', s', height);
    }
  }

  /** Announcing any block of Core's gets memory, store and ledger onto Core's chain if and only if memory is on it already or
      the fork can be reached. */
  lemma {:induction false} FirstCall(core: Core, h: int, s: Ledger, depth: nat, m: Node, m': Node, s': Ledger, height: Option<int>)
    requires Standing(m, s) && Comparable(core, s) && core.Has(h) && h >= s.start
    requires OneHeight(core, m.height, m.hash) && NoneRepeats(core)
    requires Processed(core, core.blocks[h], Some(h), s, depth, m, m', s', height)
    ensures Following(core, m', s') <==> Recoverable(core, s, depth, m)
  {
    if Recoverable(core, s, depth, m) {
      FirstCallFollows(core, h, s, depth, m, m', s', height);
    } else {
      FirstCallFails(core, h, s, depth, m, m', s', height);
    }
  }

  lemma {:induction false} CatchesUpFollows(core: Core, h: int, s: Ledger, depth: nat, m: Node, m': Node, s': Ledger, height: Option<int>)
    requires Standing(m, s) && Comparable(core, s) && core.Has(h) && h > s.Tip() + 1
    requires Recovers(core, s, m.db, depth)
    requires exists mid, t :: Retried(core, core.blocks[h], h, s, depth, m, mid, t, m', s', height)
    ensures Following(core, m', s')
  {
    var mid, t :| Retried(core, core.blocks[h], h, s, depth, m, mid, t, m', s', height);
    CaughtUpMeans(core, h - 1, s, depth, m, mid, t);
    CaughtUpInStep(core, h - 1, s, depth, m, mid, t);
    assert core.HashAt(h - 1) == Some(core.blocks[h].header.prev);
    SameIsLinked(core, t);
    AppendedFollows(core, h, t, mid, m', s', height);
  }

  /** One retry is enough: once a block of Core's has been announced twice, the ledger is Core's chain up to it at least. */
  lemma {:induction false} RetryFollows(core: Core, h: int, s: Ledger, depth: nat, m: Node, mid: Node, t: Ledger, m': Node, s': Ledger,
                                        first: Option<int>, second: Option<int>)
    requires Standing(m, s) && Comparable(core, s) && core.Has(h) && h >= s.start
    requires OneHeight(core, m.height, m.hash) && NoneRepeats(core)
    requires Recoverable(core, s, depth, m)
    requires Processed(core, core.blocks[h], Some(h), s, depth, m, mid, t, first)
    requires Processed(core, core.blocks[h], Some(h), t, depth, mid, m', s', second)
    ensures Following(core, m', s') && h <= s'.Tip()
  {
    assert Following(core, mid, t) && t.start == s.start by {
      FirstCall(core, h, s, depth, m, mid, t, first);
      ProcessedMeans(core, core.blocks[h], Some(h), s, depth, m, mid, t, first);
    }
    FollowerTakes(core, h, t, depth, mid, m', s', second);
  }
}
