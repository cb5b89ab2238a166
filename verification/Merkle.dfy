/** Merkle branches of a block's transactions. */
module Merkle {
  import opened Types

  /** Pairs a level into the next; an unpaired last node is paired with itself. */
  function Next<H>(hash: (H, H) -> H, level: seq<H>): seq<H>
  {
    seq((|level| + 1) / 2, i requires 0 <= i < (|level| + 1) / 2 =>
      hash(level[2 * i], if 2 * i + 1 < |level| then level[2 * i + 1] else level[2 * i]))
  }

  function Root<H>(hash: (H, H) -> H, level: seq<H>): H
    requires |level| > 0
    decreases |level|
  {
    if |level| == 1 then level[0] else Root(hash, Next(hash, level))
  }

  /** The other node of a pair: pos with its lowest bit flipped. */
  function Sibling(pos: nat): nat {
    if pos % 2 == 0 then pos + 1 else pos - 1
  }

  predicate Unpaired(n: nat, pos: nat) {
    Sibling(pos) >= n
  }

  /** What the branch of a position holds: the siblings on the way up, where there are any. */
  function Branch<H>(hash: (H, H) -> H, level: seq<H>, pos: nat): seq<H>
    requires pos < |level|
    decreases |level|
  {
    if |level| == 1 then [] else
    (if Sibling(pos) < |level| then [level[Sibling(pos)]] else []) + Branch(hash, Next(hash, level), pos / 2)
  }

  method NextLevel<H>(hash: (H, H) -> H, level: seq<H>) returns (next: seq<H>)
    ensures next == Next(hash, level)
  {
    next := [];
    var i := 0;
    while i < |level|
      invariant i % 2 == 0 && 0 <= i <= |level| + 1 && |next| == i / 2
      invariant forall j :: 0 <= j < |next| ==> next[j] == Next(hash, level)[j]
    {
      var left := level[i];
      var right := left;
      if i + 1 < |level| {
        right := level[i + 1];
      }
      next := next + [hash(left, right)];
      i := i + 2;
    }
  }

  method BuildMerkleBranch<H>(hash: (H, H) -> H, txids: seq<H>, pos: nat) returns (branch: seq<H>)
    requires pos < |txids|
    ensures branch == Branch(hash, txids, pos)
  {
    if |txids| == 1 {
      return [];
    }
    var level, p: nat := txids, pos;
    branch := [];
    while |level| > 1
      invariant p < |level| && Branch(hash, txids, pos) == branch + Branch(hash, level, p)
      invariant |level| > 0
      decreases |level|
    {
      BranchStep(hash, level, p, branch);
      var sibling := Sibling(p);
      if sibling < |level| {
        branch := branch + [level[sibling]];
      }
      level := NextLevel(hash, level);
      p := p / 2;
    }
  }

  lemma {:induction false} BranchStep<H>(hash: (H, H) -> H, level: seq<H>, pos: nat, before: seq<H>)
    requires pos < |level| && |level| > 1
    ensures var rest := Branch(hash, Next(hash, level), pos / 2);
            before + Branch(hash, level, pos) ==
            if Sibling(pos) < |level| then before + [level[Sibling(pos)]] + rest else before + rest
  {
    var rest := Branch(hash, Next(hash, level), pos / 2);
    if Sibling(pos) < |level| {
      Regroup(before, [level[Sibling(pos)]], rest);
    } else {
      Regroup(before, [], rest);
      assert before + [] == before;
    }
  }

  // ----- the root, as Bitcoin defines it

  lemma {:induction false} NextOfHalves<H>(hash: (H, H) -> H, left: seq<H>, right: seq<H>)
    requires |left| % 2 == 0
    ensures Next(hash, left + right) == Next(hash, left) + Next(hash, right)
  {
    var both, level := Next(hash, left + right), left + right;
    assert |both| == |left| / 2 + (|right| + 1) / 2;
    forall i | 0 <= i < |both| ensures both[i] == (Next(hash, left) + Next(hash, right))[i] {
      if i < |left| / 2 {
        assert level[2 * i] == left[2 * i] && level[2 * i + 1] == left[2 * i + 1];
      } else {
        var j := i - |left| / 2;
        assert level[2 * i] == right[2 * j];
        assert 2 * j + 1 < |right| ==> level[2 * i + 1] == right[2 * j + 1];
      }
    }
  }

  /** The root of two full halves is the hash of their roots, the left one first. */
  lemma {:induction false} RootOfHalves<H>(hash: (H, H) -> H, left: seq<H>, right: seq<H>, k: nat)
    requires |left| == |right| == Pow2(k)
    ensures |left + right| > 0 && Root(hash, left + right) == hash(Root(hash, left), Root(hash, right))
    decreases k
  {
    if k == 0 {
      assert Next(hash, left + right) == [hash(left[0], right[0])];
    } else {
      NextOfHalves(hash, left, right);
      RootOfHalves(hash, Next(hash, left), Next(hash, right), k - 1);
    }
  }

  /** A level of odd length above 1 has the root of the level with its last node repeated. */
  lemma {:induction false} RootOfOdd<H>(hash: (H, H) -> H, level: seq<H>)
    requires |level| > 1 && |level| % 2 == 1
    ensures Root(hash, level) == Root(hash, level + [level[|level| - 1]])
  {
    var longer := level + [level[|level| - 1]];
    assert Next(hash, level) == Next(hash, longer);
  }

  // ----- what a client makes of it

  /** The fold of Electrum protocol 1.4: each hash of the branch goes left or right by the bits of the position. */
  function Fold<H>(hash: (H, H) -> H, node: H, branch: seq<H>, pos: nat): H
    decreases |branch|
  {
    if branch == [] then node else
    Fold(hash, Parent(hash, node, branch[0], pos), branch[1..], pos / 2)
  }

  /** The fold that knows the number of transactions, and pairs an unpaired node with itself. */
  function SelfPairingFold<H>(hash: (H, H) -> H, node: H, branch: seq<H>, pos: nat, n: nat): H
    requires pos < n
    decreases n
  {
    if n == 1 then node
    else if Unpaired(n, pos) then SelfPairingFold(hash, hash(node, node), branch, pos / 2, (n + 1) / 2)
    else if branch == [] then node
    else SelfPairingFold(hash, Parent(hash, node, branch[0], pos), branch[1..], pos / 2, (n + 1) / 2)
  }

  /** How often the way up meets an unpaired node. */
  function UnpairedLevels(n: nat, pos: nat): nat
    requires pos < n
    decreases n
  {
    if n == 1 then 0 else (if Unpaired(n, pos) then 1 else 0) + UnpairedLevels((n + 1) / 2, pos / 2)
  }

  function Pow2(k: nat): (p: nat)
    ensures p > 0
  {
    if k == 0 then 1 else 2 * Pow2(k - 1)
  }

  /** The number of levels above the leaves. */
  function Height(n: nat): nat
    requires n > 0
    decreases n
  {
    if n == 1 then 0 else 1 + Height((n + 1) / 2)
  }

  /** It is the logarithm rounded up. */
  lemma {:induction false} HeightIsLog(n: nat)
    requires n > 0
    ensures n <= Pow2(Height(n)) && (n > 1 ==> Pow2(Height(n) - 1) < n)
    decreases n
  {
    if n > 1 {
      HeightIsLog((n + 1) / 2);
    }
  }

  function Parent<H>(hash: (H, H) -> H, node: H, sibling: H, pos: nat): H {
    if pos % 2 == 0 then hash(node, sibling) else hash(sibling, node)
  }

  lemma {:induction false} NextAt<H>(hash: (H, H) -> H, level: seq<H>, pos: nat)
    requires pos < |level|
    ensures Next(hash, level)[pos / 2] ==
            if Unpaired(|level|, pos) then hash(level[pos], level[pos]) else Parent(hash, level[pos], level[Sibling(pos)], pos)
  {
    var i := pos / 2;
    assert pos == 2 * i || pos == 2 * i + 1;
  }

  /** Folding with self-pairing gives the root, for every number of transactions and every position. */
  lemma {:induction false} BranchGivesRoot<H>(hash: (H, H) -> H, level: seq<H>, pos: nat)
    requires pos < |level|
    ensures SelfPairingFold(hash, level[pos], Branch(hash, level, pos), pos, |level|) == Root(hash, level)
    decreases |level|
  {
    if |level| > 1 {
      var next := Next(hash, level);
      BranchGivesRoot(hash, next, pos / 2);
      NextAt(hash, level, pos);
      FoldStep(hash, level, next, pos, Branch(hash, next, pos / 2));
    }
  }

  lemma {:induction false} FoldStep<H>(hash: (H, H) -> H, level: seq<H>, next: seq<H>, pos: nat, rest: seq<H>)
    requires |level| > 1 && pos < |level| && |next| == (|level| + 1) / 2
    requires next[pos / 2] == if Unpaired(|level|, pos) then hash(level[pos], level[pos])
                              else Parent(hash, level[pos], level[Sibling(pos)], pos)
    ensures SelfPairingFold(hash, level[pos], (if Sibling(pos) < |level| then [level[Sibling(pos)]] else []) + rest, pos, |level|) ==
            SelfPairingFold(hash, next[pos / 2], rest, pos / 2, |next|)
  {
    if Unpaired(|level|, pos) {
      assert [] + rest == rest;
    } else {
      assert ([level[Sibling(pos)]] + rest)[1..] == rest;
    }
  }

  lemma {:induction false} BranchLength<H>(hash: (H, H) -> H, level: seq<H>, pos: nat)
    requires pos < |level|
    ensures |Branch(hash, level, pos)| == Height(|level|) - UnpairedLevels(|level|, pos)
    decreases |level|
  {
    if |level| > 1 {
      var next := Next(hash, level);
      assert |next| == (|level| + 1) / 2;
      BranchLength(hash, next, pos / 2);
      var rest := Branch(hash, next, pos / 2);
      if Sibling(pos) < |level| {
        assert |Branch(hash, level, pos)| == 1 + |rest|;
      } else {
        assert |Branch(hash, level, pos)| == |rest|;
      }
    }
  }

  /** Without unpaired nodes on the way up the plain fold does the same. */
  lemma {:induction false} PlainFoldAgrees<H>(hash: (H, H) -> H, node: H, branch: seq<H>, pos: nat, n: nat)
    requires pos < n && UnpairedLevels(n, pos) == 0 && |branch| == Height(n)
    ensures Fold(hash, node, branch, pos) == SelfPairingFold(hash, node, branch, pos, n)
    decreases n
  {
    if n > 1 {
      PlainFoldAgrees(hash, Parent(hash, node, branch[0], pos), branch[1..], pos / 2, (n + 1) / 2);
    }
  }

  lemma {:induction false} PlainFoldGivesRoot<H>(hash: (H, H) -> H, level: seq<H>, pos: nat)
    requires pos < |level| && UnpairedLevels(|level|, pos) == 0
    ensures Fold(hash, level[pos], Branch(hash, level, pos), pos) == Root(hash, level)
  {
    BranchGivesRoot(hash, level, pos);
    BranchLength(hash, level, pos);
    PlainFoldAgrees(hash, level[pos], Branch(hash, level, pos), pos, |level|);
  }

  // ----- with a hash that tells everything apart

  /** Hashes without collisions, as the trees they stand for. */
  datatype Tree = Leaf(id: nat) | Node(left: Tree, right: Tree)

  function Paired(left: Tree, right: Tree): Tree {
    Node(left, right)
  }

  /** The distance from the top to the nearest leaf. */
  function Depth(t: Tree): nat {
    match t
    case Leaf(_) => 0
    case Node(l, r) => 1 + if Depth(l) < Depth(r) then Depth(l) else Depth(r)
  }

  lemma {:induction false} RootDepth(level: seq<Tree>, d: nat)
    requires |level| > 0 && forall i :: 0 <= i < |level| ==> Depth(level[i]) == d
    ensures Depth(Root(Paired, level)) == d + Height(|level|)
    decreases |level|
  {
    if |level| > 1 {
      RootDepth(Next(Paired, level), d + 1);
    }
  }

  lemma {:induction false} FoldDepth(node: Tree, branch: seq<Tree>, pos: nat)
    ensures Depth(Fold(Paired, node, branch, pos)) <= Depth(node) + |branch|
    decreases |branch|
  {
    if branch != [] {
      FoldDepth(Parent(Paired, node, branch[0], pos), branch[1..], pos / 2);
    }
  }

  /** Then the plain fold gives the root exactly when no node on the way up is unpaired. */
  lemma {:induction false} PlainFoldGivesRootWhen(level: seq<Tree>, pos: nat)
    requires pos < |level| && forall i :: 0 <= i < |level| ==> level[i].Leaf?
    ensures Fold(Paired, level[pos], Branch(Paired, level, pos), pos) == Root(Paired, level) <==>
            UnpairedLevels(|level|, pos) == 0
  {
    if UnpairedLevels(|level|, pos) == 0 {
      PlainFoldGivesRoot(Paired, level, pos);
    } else {
      RootDepth(level, 0);
      BranchLength(Paired, level, pos);
      FoldDepth(level[pos], Branch(Paired, level, pos), pos);
    }
  }

  // ----- the query

  datatype Proof<H> = NotFound | Proof(pos: nat, merkle: seq<H>)

  /** The branch of the first position that holds this transaction id. */
  method GetTransactionMerkleProof<H(==)>(hash: (H, H) -> H, txids: seq<H>, txid: H) returns (proof: Proof<H>)
    ensures proof.NotFound? <==> txid !in txids
    ensures proof.Proof? ==>
              && proof.pos < |txids| && txids[proof.pos] == txid && txid !in txids[..proof.pos]
              && proof.merkle == Branch(hash, txids, proof.pos)
              && SelfPairingFold(hash, txid, proof.merkle, proof.pos, |txids|) == Root(hash, txids)
  {
    for i := 0 to |txids|
      invariant txid !in txids[..i]
    {
      if txids[i] == txid {
        var branch := BuildMerkleBranch(hash, txids, i);
        BranchGivesRoot(hash, txids, i);
        return Proof(i, branch);
      }
    }
    proof := NotFound;
  }
}
