/** What the chain manager does behind the status cache's back. */
module Unreported {
  import opened Store
  import opened ChainSync
  import opened Balance
  import opened HistoryQuery
  import opened Attribution
  import opened Statuses
  import opened Reorg
  import opened Manager

  /** A catch-up on top of memory's block reports nothing: it leaves the status cache right if and only if none of the blocks
      it indexes touches a clean entry. */
  lemma {:induction false} CaughtUpUnreported(u: Universe, c: Cache, core: Core, target: int, s: Ledger, depth: nat, m: Node,
                                              m': Node, s': Ledger)
    requires InStepWith(m.db, s) && Continues(core, m.height, m.hash) && target > s.Tip()
    requires CaughtUp(core, target, s, depth, m, m', s')
    requires Ahead(u, s'.chain, s'.start, |s.chain|, m.db.rows, m.overlay) && Right(c, m.db.rows, m.overlay)
    ensures Right(c, m'.db.rows, m'.overlay) <==>
            forall sh {:trigger c.Clean(sh)} :: c.Clean(sh) ==> !TouchedFrom(s'.chain, s'.start, |s.chain|, sh)
  {
    assert Reached(core, s, Top(core, target), m.overlay, m', s');
    assert InStepWith(m'.db, s');
    assert Unfolds(m'.db);
    CatchUpIsUnreported(u, c, s'.chain, s'.start, |s.chain|, m.db.rows, m'.db.rows, m.overlay, m'.overlay);
  }

  /** Neither does a reorganisation: the cache stays right if and only if the blocks that go touch no clean entry and none had
      pending transactions. */
  lemma {:induction false} ReorganisedUnreported(c: Cache, core: Core, s: Ledger, depth: nat, m: Node, m': Node, s': Ledger)
    requires Tracks(m.db, s) && core.Has(s.Tip()) && !OnCore(core, s) && Recovers(core, s, m.db, depth)
    requires Reorganised(core, s, depth, m, m', s') && Right(c, m.db.rows, m.overlay)
    ensures Right(c, m'.db.rows, m'.overlay) <==>
            forall sh {:trigger c.Clean(sh)} :: c.Clean(sh) ==>
              && !TouchedFrom(s.chain, s.start, |s'.chain|, sh)
              && Filed(m.overlay, sh) <= TxidsOf(ConfirmedItems(m.db.rows, sh))
  {
    assert Unfolds(m.db) && Unfolds(m'.db);
    assert InStepWith(m'.db, s');
    BasedIsPrefix(core, s, depth, m.db);
    RebuildLess(s.chain, s.start, |s'.chain|);
    RollbackIsUnreported(c, s.chain, s.start, |s'.chain|, m'.db.rows, m.db.rows, m.overlay);
  }

  lemma {:induction false} BasedIsPrefix(core: Core, s: Ledger, depth: nat, db: Db)
    requires Tracks(db, s) && core.Has(s.Tip()) && Recovers(core, s, db, depth)
    ensures var t := Based(core, s, db, depth); |t.chain| <= |s.chain| && t.chain == s.chain[..|t.chain|] && t.start == s.start
  {
  }
}
