/** The history of a scripthash: confirmed transactions in chain order, then the mempool's. */
module HistoryQuery {
  import opened Types
  import opened Store
  import opened Indexing
  import opened Replay
  import opened HistoryRows
  import opened Mempool
  import opened ChainSync
  import Overlay
  import Keys
  import Balance

  // ----- the order of an iterator over one scripthash's rows

  predicate Before(a: HistoryKey, b: HistoryKey) {
    Keys.Earlier(a.height, a.txIndex, a.index, b.height, b.txIndex, b.index)
  }

  /** It is the order of the stored keys, whose heights are never negative. */
  lemma {:induction false} BeforeIsByteOrder(a: HistoryKey, b: HistoryKey)
    requires a.scripthash == b.scripthash && |a.scripthash.bytes| == HASH_LENGTH
    requires 0 <= a.height < Keys.I32 && a.txIndex < U32 && a.index < U32
    requires 0 <= b.height < Keys.I32 && b.txIndex < U32 && b.index < U32
    ensures Before(a, b) <==> Keys.Less(Keys.MakeHistoryKey(a.scripthash.bytes, a.height, a.txIndex, a.index).value,
                                        Keys.MakeHistoryKey(b.scripthash.bytes, b.height, b.txIndex, b.index).value)
  {
    Keys.HeightOrder(a.scripthash.bytes, a.height, a.txIndex, a.index, b.height, b.txIndex, b.index);
  }

  /** The rows of one scripthash are the keys in its prefix range. */
  lemma {:induction false} ScanSeesKeys(history: set<HistoryKey>, sh: Hash, k: HistoryKey)
    requires k in history && |sh.bytes| == 32 && |k.scripthash.bytes| == 32 && k.txIndex < U32 && k.index < U32
    ensures var key := Keys.MakeHistoryKey(k.scripthash.bytes, k.height, k.txIndex, k.index);
            && key.Some? && Keys.MakeHistoryPrefix(sh.bytes).Some?
            && (Keys.InRange(Keys.MakeHistoryPrefix(sh.bytes).value, key.value) <==> k in KeysOf(history, sh))
  {
    Keys.ZerosAt(32);
    Keys.HistoryRange(sh.bytes, k.scripthash.bytes, Zeros(32), 0, k.height, k.txIndex, k.index);
    assert sh.bytes == k.scripthash.bytes ==> sh == k.scripthash;
  }

  function KeysOf(history: set<HistoryKey>, sh: Hash): set<HistoryKey> {
    set k | k in history && k.scripthash == sh
  }

  ghost predicate OneScripthash(s: set<HistoryKey>, sh: Hash) {
    forall k {:trigger k in s} :: k in s ==> k.scripthash == sh
  }

  predicate IsFirst(k: HistoryKey, s: set<HistoryKey>) {
    k in s && forall j {:trigger j in s} :: j in s ==> j == k || Before(k, j)
  }

  lemma {:induction false} FirstExists(s: set<HistoryKey>, sh: Hash)
    requires s != {} && OneScripthash(s, sh)
    ensures exists k :: IsFirst(k, s)
  {
    var x :| x in s;
    if s == {x} {
      assert IsFirst(x, s);
    } else {
      var rest := s - {x};
      FirstExists(rest, sh);
      var k :| IsFirst(k, rest);
      var first := if Before(x, k) then x else k;
      forall j | j in s ensures j == first || Before(first, j) {
        assert j == x || j in rest;
      }
      assert IsFirst(first, s);
    }
  }

  /** The keys as an iterator visits them. */
  ghost function Sorted(s: set<HistoryKey>, sh: Hash): seq<HistoryKey>
    requires OneScripthash(s, sh)
  {
    if s == {} then [] else
    FirstExists(s, sh);
    var k :| IsFirst(k, s);
    [k] + Sorted(s - {k}, sh)
  }

  ghost predicate Increasing(keys: seq<HistoryKey>) {
    forall i, j :: 0 <= i < j < |keys| ==> Before(keys[i], keys[j])
  }

  lemma {:induction false} SortedFrom(s: set<HistoryKey>, sh: Hash, k: HistoryKey)
    requires OneScripthash(s, sh) && IsFirst(k, s)
    ensures Sorted(s, sh) == [k] + Sorted(s - {k}, sh)
  {
  }

  lemma {:induction false} SortedExact(s: set<HistoryKey>, sh: Hash)
    requires OneScripthash(s, sh)
    ensures Increasing(Sorted(s, sh))
    ensures forall k :: k in Sorted(s, sh) <==> k in s
  {
    if s != {} {
      FirstExists(s, sh);
      var k :| IsFirst(k, s);
      SortedFrom(s, sh, k);
      SortedExact(s - {k}, sh);
      FirstThenRest(k, Sorted(s - {k}, sh), s);
    }
  }

  lemma {:induction false} FirstThenRest(k: HistoryKey, rest: seq<HistoryKey>, s: set<HistoryKey>)
    requires IsFirst(k, s) && Increasing(rest) && forall j :: j in rest <==> j in s - {k}
    ensures Increasing([k] + rest)
    ensures forall j :: j in [k] + rest <==> j in s
  {
    var keys := [k] + rest;
    forall i, j | 0 <= i < j < |keys| ensures Before(keys[i], keys[j]) {
      assert keys[j] == rest[j - 1] && rest[j - 1] in rest;
    }
    assert forall j :: j in keys <==> j == k || j in rest;
  }

  // ----- the confirmed part

  datatype Item = Item(txid: Hash, height: int)

  function TxidsOf(items: seq<Item>): set<Hash> {
    set x | x in items :: x.txid
  }

  function Resolved(rows: Rows, k: HistoryKey): Option<Hash> {
    if k.height in rows.txids && k.txIndex < |rows.txids[k.height]| then Some(rows.txids[k.height][k.txIndex]) else None
  }

  /** Rows that name no transaction are skipped, and a transaction is listed once. */
  function WithItem(items: seq<Item>, txid: Option<Hash>, height: int): seq<Item> {
    if txid == None || txid.value in TxidsOf(items) then items else items + [Item(txid.value, height)]
  }

  function Items(rows: Rows, keys: seq<HistoryKey>): seq<Item> {
    if keys == [] then [] else
    var k := keys[|keys| - 1];
    WithItem(Items(rows, keys[..|keys| - 1]), Resolved(rows, k), k.height)
  }

  ghost function ConfirmedItems(rows: Rows, sh: Hash): seq<Item> {
    Items(rows, Sorted(KeysOf(rows.history, sh), sh))
  }

  lemma {:induction false} ItemsPlus(rows: Rows, keys: seq<HistoryKey>, k: HistoryKey)
    ensures Items(rows, keys + [k]) == WithItem(Items(rows, keys), Resolved(rows, k), k.height)
  {
    assert (keys + [k])[..|keys|] == keys;
  }

  lemma {:induction false} TxidsPlus(items: seq<Item>, x: Item)
    ensures TxidsOf(items + [x]) == TxidsOf(items) + {x.txid}
  {
    assert forall y :: y in items + [x] <==> y in items || y == x;
  }

  method ConfirmedHistory(rows: Rows, sh: Hash) returns (list: seq<Item>, seen: set<Hash>)
    ensures list == ConfirmedItems(rows, sh) && seen == TxidsOf(list)
  {
    var todo := KeysOf(rows.history, sh);
    ghost var all, done := Sorted(todo, sh), [];
    var cache: map<int, seq<Hash>> := map[];
    list, seen := [], {};
    while todo != {}
      invariant OneScripthash(todo, sh) && all == done + Sorted(todo, sh)
      invariant list == Items(rows, done) && seen == TxidsOf(list)
      invariant forall h {:trigger h in cache} :: h in cache ==> h in rows.txids && cache[h] == rows.txids[h]
      decreases todo
    {
      FirstExists(todo, sh);
      var k: HistoryKey :| IsFirst(k, todo);
      SortedFrom(todo, sh, k);
      ItemsPlus(rows, done, k);
      Regroup(done, [k], Sorted(todo - {k}, sh));
      todo, done := todo - {k}, done + [k];
      if k.height !in cache {
        if k.height !in rows.txids {
          continue;
        }
        cache := cache[k.height := rows.txids[k.height]];
      }
      var txids := cache[k.height];
      if k.txIndex >= |txids| || txids[k.txIndex] in seen {
        continue;
      }
      TxidsPlus(list, Item(txids[k.txIndex], k.height));
      list, seen := list + [Item(txids[k.txIndex], k.height)], seen + {txids[k.txIndex]};
    }
    assert done == all;
  }

  /** The order of the final sort: by height, with the mempool's height 0 last. */
  predicate Precedes(a: Item, b: Item) {
    if a.height == 0 then false else b.height == 0 || a.height < b.height
  }

  ghost predicate InHeightOrder(list: seq<Item>) {
    forall i, j :: 0 <= i < j < |list| ==> !Precedes(list[j], list[i])
  }

  lemma {:induction false} HeightOrderMeans(list: seq<Item>)
    ensures InHeightOrder(list) <==> forall i, j :: 0 <= i < j < |list| && list[j].height != 0 ==> 0 != list[i].height <= list[j].height
  {
    forall i, j | 0 <= i < j < |list|
      ensures !Precedes(list[j], list[i]) <==> (list[j].height != 0 ==> 0 != list[i].height <= list[j].height)
    {
    }
  }

  /** Any sort will do; entries of one height may come out in any order. */
  method SortByHeight(list: seq<Item>) returns (sorted: seq<Item>)
    ensures multiset(sorted) == multiset(list) && InHeightOrder(sorted)
    ensures forall i, j :: 0 <= i < j < |sorted| && sorted[i].height == 0 ==> sorted[j].height == 0
    ensures forall i, j :: 0 <= i < j < |sorted| && sorted[j].height != 0 ==> sorted[i].height <= sorted[j].height
  {
    sorted := [];
    for i := 0 to |list|
      invariant multiset(sorted) == multiset(list[..i]) && InHeightOrder(sorted)
    {
      var k := PlaceFor(sorted, list[i]);
      InsertKeepsOrder(sorted, k, list[i]);
      InsertAdds(sorted, k, list[i]);
      assert list[..i + 1] == list[..i] + [list[i]];
      sorted := Inserted(sorted, k, list[i]);
    }
    assert list[..|list|] == list;
    HeightOrderMeans(sorted);
  }

  function Inserted(list: seq<Item>, k: nat, x: Item): seq<Item>
    requires k <= |list|
  {
    list[..k] + [x] + list[k..]
  }

  method PlaceFor(list: seq<Item>, x: Item) returns (k: nat)
    ensures k <= |list| && forall j :: k <= j < |list| ==> Precedes(x, list[j])
    ensures k > 0 ==> !Precedes(x, list[k - 1])
  {
    k := |list|;
    while k > 0 && Precedes(x, list[k - 1])
      invariant k <= |list| && forall j :: k <= j < |list| ==> Precedes(x, list[j])
    {
      k := k - 1;
    }
  }

  lemma {:induction false} InsertAdds(list: seq<Item>, k: nat, x: Item)
    requires k <= |list|
    ensures multiset(Inserted(list, k, x)) == multiset(list) + multiset{x}
  {
    assert list == list[..k] + list[k..];
  }

  lemma {:induction false} InsertKeepsOrder(list: seq<Item>, k: nat, x: Item)
    requires k <= |list| && InHeightOrder(list)
    requires forall j :: k <= j < |list| ==> Precedes(x, list[j])
    requires k > 0 ==> !Precedes(x, list[k - 1])
    ensures InHeightOrder(Inserted(list, k, x))
  {
    forall i | 0 <= i < k ensures !Precedes(x, list[i]) {
      assert i < k - 1 ==> !Precedes(list[k - 1], list[i]);
    }
  }

  /** Everything found, sorted by height: on a chain whose heights are positive, the confirmed part and then the pending one. */
  method GetScripthashHistory(mempool: MempoolOverlay, sh: Hash) returns (list: seq<Item>, ghost found: seq<Item>, ghost n: nat)
    requires mempool.Valid()
    ensures Found(mempool.store.db.rows, mempool.view, sh, found, n) && ChainOrdered(mempool.store.db.rows, sh, found[..n])
    ensures multiset(list) == multiset(found) && InHeightOrder(list)
    ensures forall i, j :: 0 <= i < j < |list| && list[i].height == 0 ==> list[j].height == 0
    ensures forall i, j :: 0 <= i < j < |list| && list[j].height != 0 ==> list[i].height <= list[j].height
  {
    var collected, confirmed := CollectHistory(mempool, sh);
    ConfirmedInChainOrder(mempool.store.db.rows, sh);
    list := SortByHeight(collected);
    found, n := collected, confirmed;
  }

  /** The confirmed part, then each pending transaction that is not in it, once. */
  ghost predicate Found(rows: Rows, ov: Overlay.OverlayView, sh: Hash, list: seq<Item>, n: nat) {
    && n <= |list| && list[..n] == ConfirmedItems(rows, sh)
    && TxidsOf(list[n..]) == Balance.Filed(ov, sh) - TxidsOf(list[..n])
    && (forall i :: n <= i < |list| ==> list[i].height == 0)
    && (forall i, j :: n <= i < j < |list| ==> list[i].txid != list[j].txid)
  }

  /** The pending transactions follow, in no particular order, except those already listed. */
  method CollectHistory(mempool: MempoolOverlay, sh: Hash) returns (list: seq<Item>, n: nat)
    requires mempool.Valid()
    ensures Found(mempool.store.db.rows, mempool.view, sh, list, n)
  {
    var confirmed, seen := ConfirmedHistory(mempool.store.db.rows, sh);
    var pending := PendingHistory(mempool.GetScripthashTransactions(sh), seen);
    n := |confirmed|;
    list := confirmed + pending;
    assert list[..n] == confirmed && list[n..] == pending;
    assert forall i :: n <= i < |list| ==> list[i] == pending[i - n];
  }

  method PendingHistory(all: set<Hash>, listed: set<Hash>) returns (pending: seq<Item>)
    ensures TxidsOf(pending) == all - listed && Once(pending)
  {
    pending := [];
    var todo, seen := all, listed;
    ghost var done: set<Hash> := {};
    while todo != {}
      invariant done <= all && (forall t :: t in todo <==> t in all && t !in done)
      invariant TxidsOf(pending) == done - listed && seen == listed + done
      invariant Once(pending)
      decreases todo
    {
      var t :| t in todo;
      if t !in seen {
        TxidsPlus(pending, Item(t, 0));
        OncePlus(pending, t);
        pending := pending + [Item(t, 0)];
      }
      seen, todo, done := seen + {t}, todo - {t}, done + {t};
    }
    assert done == all;
  }

  /** Unconfirmed entries, each transaction once. */
  ghost predicate Once(pending: seq<Item>) {
    && (forall i :: 0 <= i < |pending| ==> pending[i].height == 0)
    && (forall i, j :: 0 <= i < j < |pending| ==> pending[i].txid != pending[j].txid)
  }

  lemma {:induction false} OncePlus(pending: seq<Item>, t: Hash)
    requires Once(pending) && t !in TxidsOf(pending)
    ensures Once(pending + [Item(t, 0)])
  {
    forall i | 0 <= i < |pending| ensures pending[i].txid != t {
      assert pending[i] in pending;
    }
  }

  // ----- what it means on a chain

  /** Rows that each name a transaction of their own are all listed. */
  lemma {:induction false} ItemsAll(rows: Rows, keys: seq<HistoryKey>)
    requires forall i :: 0 <= i < |keys| ==> Resolved(rows, keys[i]).Some?
    requires forall i, j :: 0 <= i < j < |keys| ==> Resolved(rows, keys[i]) != Resolved(rows, keys[j])
    ensures |Items(rows, keys)| == |keys|
    ensures forall i :: 0 <= i < |keys| ==> Items(rows, keys)[i] == Item(Resolved(rows, keys[i]).value, keys[i].height)
  {
    if keys != [] {
      var init, k := keys[..|keys| - 1], keys[|keys| - 1];
      ItemsAll(rows, init);
      var items := Items(rows, init);
      forall i | 0 <= i < |items| ensures items[i].txid != Resolved(rows, k).value {
        assert Resolved(rows, keys[i]) != Resolved(rows, k);
      }
    }
  }

  lemma {:induction false} TxidsAt(chain: seq<Entry>, start: int, n: nat, i: nat)
    requires i < n <= |chain|
    ensures start + i in Rebuild(chain, start, n).txids
    ensures Rebuild(chain, start, n).txids[start + i] == Txids(chain[i].block.txs)
  {
    if i < n - 1 {
      TxidsAt(chain, start, n - 1, i);
    }
  }

  /** A transaction id stands at one place in a chain. */
  lemma {:induction false} OnePlace(chain: seq<Entry>, i: nat, t: nat, j: nat, u: nat)
    requires UniqueTxids(chain) && i <= j < |chain| && t < |chain[i].block.txs| && u < |chain[j].block.txs|
    requires chain[i].block.txs[t].txid == chain[j].block.txs[u].txid
    ensures i == j && t == u
  {
    assert Fresh(chain[j].block.txs, ChainTxids(chain, j));
    assert chain[j].block.txs[u] in chain[j].block.txs;
    if i < j {
      OldTxid(chain, j, i, t);
    }
  }

  /** The chain's rows for a scripthash, with what each stands for. */
  ghost predicate StandsFor(chain: seq<Entry>, start: int, sh: Hash, k: HistoryKey, x: Item) {
    && TouchesAt(chain, start, |chain|, sh, k.height, k.txIndex)
    && x == Item(chain[k.height - start].block.txs[k.txIndex].txid, k.height)
  }

  /** Row k names the transaction at its place in the chain. */
  ghost predicate InPlace(chain: seq<Entry>, start: int, rows: Rows, k: HistoryKey) {
    && start <= k.height < start + |chain| && k.txIndex < |chain[k.height - start].block.txs|
    && Resolved(rows, k) == Some(chain[k.height - start].block.txs[k.txIndex].txid)
  }

  lemma {:induction false} NamedByRow(chain: seq<Entry>, start: int, rows: Rows, k: HistoryKey)
    requires rows == Rebuild(chain, start, |chain|)
    requires start <= k.height < start + |chain| && k.txIndex < |chain[k.height - start].block.txs|
    ensures InPlace(chain, start, rows, k)
  {
    TxidsAt(chain, start, |chain|, k.height - start);
  }

  lemma {:induction false} KeyStands(chain: seq<Entry>, start: int, sh: Hash, rows: Rows, k: HistoryKey)
    requires UniqueTxids(chain) && Ordered(chain, start) && rows == Rebuild(chain, start, |chain|)
    requires k in KeysOf(rows.history, sh)
    ensures TouchesAt(chain, start, |chain|, sh, k.height, k.txIndex) && InPlace(chain, start, rows, k)
  {
    HistoryExact(chain, start, |chain|, sh, k.height, k.txIndex);
    assert HistoryKey(sh, k.height, k.txIndex, k.index) in rows.history;
    NamedByRow(chain, start, rows, k);
  }

  /** Two rows of a scripthash stand for different transactions. */
  lemma {:induction false} KeysDiffer(chain: seq<Entry>, start: int, sh: Hash, rows: Rows, j: HistoryKey, k: HistoryKey)
    requires UniqueTxids(chain) && OneNumber(rows.history)
    requires j in KeysOf(rows.history, sh) && k in KeysOf(rows.history, sh) && j != k
    requires InPlace(chain, start, rows, j) && InPlace(chain, start, rows, k)
    ensures (j.height, j.txIndex) != (k.height, k.txIndex)
    ensures Resolved(rows, j) != Resolved(rows, k)
  {
    assert j == HistoryKey(sh, j.height, j.txIndex, j.index) && k == HistoryKey(sh, k.height, k.txIndex, k.index);
    assert SameNumber(rows.history, sh, j.height, j.txIndex, j.index, k.index);
    if Resolved(rows, j) == Resolved(rows, k) {
      if j.height <= k.height {
        OnePlace(chain, j.height - start, j.txIndex, k.height - start, k.txIndex);
      } else {
        OnePlace(chain, k.height - start, k.txIndex, j.height - start, j.txIndex);
      }
    }
  }

  /** Item i is transaction places[i] of the chain; places increase and are exactly the transactions that touch sh. */
  ghost predicate ListsTouching(chain: seq<Entry>, start: int, sh: Hash, items: seq<Item>, places: seq<HistoryKey>) {
    && |places| == |items|
    && (forall i :: 0 <= i < |items| ==> StandsFor(chain, start, sh, places[i], items[i]))
    && (forall i, j :: 0 <= i < j < |items| ==>
          places[i].height < places[j].height || (places[i].height == places[j].height && places[i].txIndex < places[j].txIndex))
    && (forall h, t {:trigger TouchesAt(chain, start, |chain|, sh, h, t)} :: TouchesAt(chain, start, |chain|, sh, h, t) ==>
          exists k {:trigger k in places} :: k in places && k.height == h && k.txIndex == t)
  }

  /** The confirmed history lists each touching transaction once, in (height, position) order. */
  lemma {:induction false} HistoryInChainOrder(chain: seq<Entry>, start: int, sh: Hash, rows: Rows)
    requires UniqueTxids(chain) && Ordered(chain, start) && rows == Rebuild(chain, start, |chain|)
    ensures ListsTouching(chain, start, sh, ConfirmedItems(rows, sh), Sorted(KeysOf(rows.history, sh), sh))
  {
    var keys := Sorted(KeysOf(rows.history, sh), sh);
    SortedExact(KeysOf(rows.history, sh), sh);
    HistoryOnce(chain, start, |chain|);
    forall i | 0 <= i < |keys|
      ensures InPlace(chain, start, rows, keys[i])
      ensures StandsFor(chain, start, sh, keys[i], Item(Resolved(rows, keys[i]).value, keys[i].height))
    {
      assert keys[i] in keys;
      KeyStands(chain, start, sh, rows, keys[i]);
    }
    forall i, j | 0 <= i < j < |keys|
      ensures Resolved(rows, keys[i]) != Resolved(rows, keys[j])
      ensures (keys[i].height, keys[i].txIndex) != (keys[j].height, keys[j].txIndex)
    {
      assert keys[i] in keys && keys[j] in keys && Before(keys[i], keys[j]);
      KeysDiffer(chain, start, sh, rows, keys[i], keys[j]);
    }
    ItemsAll(rows, keys);
    AllListed(chain, start, sh, rows, keys);
  }

  lemma {:induction false} AllListed(chain: seq<Entry>, start: int, sh: Hash, rows: Rows, keys: seq<HistoryKey>)
    requires UniqueTxids(chain) && Ordered(chain, start) && rows == Rebuild(chain, start, |chain|)
    requires forall k :: k in keys <==> k in KeysOf(rows.history, sh)
    ensures forall h, t {:trigger TouchesAt(chain, start, |chain|, sh, h, t)} :: TouchesAt(chain, start, |chain|, sh, h, t) ==>
              exists k {:trigger k in keys} :: k in keys && k.height == h && k.txIndex == t
  {
    forall h, t | TouchesAt(chain, start, |chain|, sh, h, t)
      ensures exists k {:trigger k in keys} :: k in keys && k.height == h && k.txIndex == t
    {
      HistoryExact(chain, start, |chain|, sh, h, t);
      var idx :| HistoryKey(sh, h, t, idx) in rows.history;
      assert HistoryKey(sh, h, t, idx) in keys;
    }
  }

  /** On whatever chain these rows replay, the items are the transactions that touch sh, once each, in chain order. */
  ghost predicate ChainOrdered(rows: Rows, sh: Hash, items: seq<Item>) {
    forall chain, start {:trigger Rebuild(chain, start, |chain|)} ::
      UniqueTxids(chain) && Ordered(chain, start) && rows == Rebuild(chain, start, |chain|) ==>
        exists places :: ListsTouching(chain, start, sh, items, places)
  }

  lemma {:induction false} ConfirmedInChainOrder(rows: Rows, sh: Hash)
    ensures ChainOrdered(rows, sh, ConfirmedItems(rows, sh))
  {
    forall chain, start | UniqueTxids(chain) && Ordered(chain, start) && rows == Rebuild(chain, start, |chain|)
      ensures exists places :: ListsTouching(chain, start, sh, ConfirmedItems(rows, sh), places)
    {
      HistoryInChainOrder(chain, start, sh, rows);
    }
  }

  // ----- what the final sort leaves

  /** A list whose height-0 entries come last falls into the two parts that it was put together from. */
  lemma {:induction false} SortSplits(list: seq<Item>, found: seq<Item>, n: nat)
    requires multiset(list) == multiset(found) && n <= |found|
    requires forall i, j :: 0 <= i < j < |list| && list[i].height == 0 ==> list[j].height == 0
    requires forall i :: 0 <= i < |found| ==> (found[i].height == 0 <==> n <= i)
    ensures |list| == |found| && multiset(list[..n]) == multiset(found[..n]) && multiset(list[n..]) == multiset(found[n..])
  {
    var m := FirstZero(list);
    assert list == list[..m] + list[m..] && found == found[..n] + found[n..];
    forall x ensures multiset(list[..m])[x] == multiset(found[..n])[x] {
      assert x in list[..m] ==> x.height != 0;
      assert x in list[m..] ==> x.height == 0;
      assert x in found[..n] ==> x.height != 0;
      assert x in found[n..] ==> x.height == 0;
      assert multiset(list)[x] == multiset(list[..m])[x] + multiset(list[m..])[x];
      assert multiset(found)[x] == multiset(found[..n])[x] + multiset(found[n..])[x];
    }
    assert multiset(list[..m]) == multiset(found[..n]);
    assert |list[..m]| == |multiset(list[..m])| == |multiset(found[..n])| == |found[..n]|;
    assert multiset(list[n..]) == multiset(list) - multiset(list[..n]);
    assert multiset(found[n..]) == multiset(found) - multiset(found[..n]);
  }

  lemma {:induction false} FirstZero(list: seq<Item>) returns (m: nat)
    requires forall i, j :: 0 <= i < j < |list| && list[i].height == 0 ==> list[j].height == 0
    ensures m <= |list| && forall i :: 0 <= i < |list| ==> (list[i].height == 0 <==> m <= i)
  {
    m := |list|;
    while m > 0 && list[m - 1].height == 0
      invariant m <= |list| && forall i :: m <= i < |list| ==> list[i].height == 0
    {
      m := m - 1;
    }
  }

  lemma {:induction false} ConfirmedHeights(chain: seq<Entry>, start: int, sh: Hash, rows: Rows)
    requires UniqueTxids(chain) && Ordered(chain, start) && rows == Rebuild(chain, start, |chain|)
    ensures forall i :: 0 <= i < |ConfirmedItems(rows, sh)| ==> start <= ConfirmedItems(rows, sh)[i].height
  {
    var items, places := ConfirmedItems(rows, sh), Sorted(KeysOf(rows.history, sh), sh);
    HistoryInChainOrder(chain, start, sh, rows);
    forall i | 0 <= i < |items| ensures start <= items[i].height {
      assert StandsFor(chain, start, sh, places[i], items[i]);
    }
  }

  /** On a chain of positive heights, a history so sorted is the confirmed part, in rising heights, and then the pending one. */
  lemma {:induction false} SortedHistoryOnChain(chain: seq<Entry>, start: int, sh: Hash, rows: Rows, ov: Overlay.OverlayView,
                                                found: seq<Item>, n: nat, list: seq<Item>)
    requires UniqueTxids(chain) && Ordered(chain, start) && rows == Rebuild(chain, start, |chain|) && start >= 1
    requires Found(rows, ov, sh, found, n) && multiset(list) == multiset(found)
    requires forall i, j :: 0 <= i < j < |list| && list[i].height == 0 ==> list[j].height == 0
    ensures n == |ConfirmedItems(rows, sh)| <= |list| && multiset(list[..n]) == multiset(ConfirmedItems(rows, sh))
    ensures TxidsOf(list[n..]) == Balance.Filed(ov, sh) - TxidsOf(list[..n])
    ensures forall i :: 0 <= i < |list| ==> (list[i].height == 0 <==> n <= i)
  {
    ConfirmedHeights(chain, start, sh, rows);
    forall i | 0 <= i < |found| ensures found[i].height == 0 <==> n <= i {
      assert i < n ==> found[i] == found[..n][i];
    }
    SortSplits(list, found, n);
    SameTxids(list[..n], found[..n]);
    SameTxids(list[n..], found[n..]);
    forall i | 0 <= i < |list| ensures list[i].height == 0 <==> n <= i {
      if i < n {
        assert list[..n][i] in multiset(found[..n]);
      } else {
        assert list[n..][i - n] in multiset(found[n..]);
      }
    }
  }

  lemma {:induction false} SameTxids(a: seq<Item>, b: seq<Item>)
    requires multiset(a) == multiset(b)
    ensures TxidsOf(a) == TxidsOf(b)
  {
    assert forall x :: x in a <==> x in multiset(a);
    assert forall x :: x in b <==> x in multiset(b);
  }
}
