/** The binary form of an undo record: little-endian words, raw hashes, three counted lists. */
module UndoCodec {
  import opened Types
  import opened Store

  // ----- little-endian words

  function Pow256(k: nat): (p: nat)
    ensures p > 0
  {
    if k == 0 then 1 else 256 * Pow256(k - 1)
  }

  /** The low k bytes of an integer, lowest first; a negative one comes out in two's complement. */
  function WordBytes(n: int, k: nat): Bytes
    decreases k, n
  {
    if k == 0 then [] else [(n % 256) as byte] + WordBytes(n / 256, k - 1)
  }

  function Number(b: Bytes): nat {
    if b == [] then 0 else b[0] as nat + 256 * Number(b[1..])
  }

  lemma {:induction false} WordLength(n: int, k: nat)
    ensures |WordBytes(n, k)| == k
    decreases k
  {
    if k > 0 {
      WordLength(n / 256, k - 1);
    }
  }

  lemma {:induction false} NumberOfWord(n: int, k: nat)
    requires -(Pow256(k) as int) <= n < Pow256(k)
    ensures Number(WordBytes(n, k)) == if n < 0 then n + Pow256(k) else n
    decreases k
  {
    if k > 0 {
      NumberOfWord(n / 256, k - 1);
      assert WordBytes(n, k)[1..] == WordBytes(n / 256, k - 1);
    }
  }

  lemma {:induction false} WordOfNumber(b: Bytes)
    ensures Number(b) < Pow256(|b|) && WordBytes(Number(b), |b|) == b
  {
    if b != [] {
      WordOfNumber(b[1..]);
      var n, m := Number(b), Number(b[1..]);
      assert n == b[0] as nat + 256 * m && n / 256 == m && n % 256 == b[0] as nat;
      assert b == [b[0]] + b[1..];
    }
  }

  /** Two's complement in k bytes can hold it. */
  predicate FitsWord(n: int, k: nat) {
    -(Pow256(k) as int) <= 2 * n < Pow256(k)
  }

  lemma {:induction false} WordOfSigned(w: nat, k: nat)
    requires w < Pow256(k)
    ensures WordBytes(Signed(w, Pow256(k)), k) == WordBytes(w, k) && FitsWord(Signed(w, Pow256(k)), k)
  {
    if 2 * w >= Pow256(k) {
      WordWraps(w, k);
    }
  }

  lemma {:induction false} WordWraps(n: int, k: nat)
    ensures WordBytes(n - Pow256(k), k) == WordBytes(n, k)
    decreases k
  {
    if k > 0 {
      WordWraps(n / 256, k - 1);
      assert (n - Pow256(k)) / 256 == n / 256 - Pow256(k - 1) && (n - Pow256(k)) % 256 == n % 256;
    }
  }

  // ----- encoding

  predicate IsHash(h: Hash) {
    |h.bytes| == HASH_LENGTH
  }

  function PutOutput(o: UndoOutput): Bytes {
    o.scripthash.bytes + o.out.txid.bytes + WordBytes(o.out.vout, 4) + WordBytes(o.value, 8) + WordBytes(o.height, 4) +
    o.blockHash.bytes
  }

  function PutHistory(h: HistoryKey): Bytes {
    h.scripthash.bytes + WordBytes(h.height, 4) + WordBytes(h.txIndex, 4) + WordBytes(h.index, 4)
  }

  function PutList<T>(put: T -> Bytes, s: seq<T>): Bytes {
    if s == [] then [] else put(s[0]) + PutList(put, s[1..])
  }

  predicate SizedOutput(o: UndoOutput) {
    IsHash(o.scripthash) && IsHash(o.out.txid) && IsHash(o.blockHash)
  }

  predicate WellSized(u: UndoBlock) {
    && IsHash(u.blockHash) && IsHash(u.prevHash)
    && (forall o {:trigger o in u.spent} :: o in u.spent ==> SizedOutput(o))
    && (forall o {:trigger o in u.created} :: o in u.created ==> SizedOutput(o))
    && (forall h {:trigger h in u.history} :: h in u.history ==> IsHash(h.scripthash))
  }

  function Head(u: UndoBlock): Bytes {
    WordBytes(u.height, 4) + u.blockHash.bytes + u.prevHash.bytes + WordBytes(|u.spent|, 4) + WordBytes(|u.created|, 4) +
    WordBytes(|u.history|, 4)
  }

  /** A hash field of the wrong length is refused. */
  function Encoded(u: UndoBlock): Option<Bytes> {
    if !WellSized(u) then None else Some(Head(u) + PutList(PutOutput, u.spent) + PutList(PutOutput, u.created) + PutList(PutHistory, u.history))
  }

  // ----- decoding

  datatype Read<T> = Fail | Got(value: T, rest: Bytes)

  /** A word needs all of its bytes. */
  function ReadWord(d: Bytes, k: nat): Read<nat> {
    if |d| < k then Fail else Got(Number(d[..k]), d[k..])
  }

  function ReadSigned(d: Bytes, k: nat): Read<int> {
    if |d| < k then Fail else Got(Signed(Number(d[..k]), Pow256(k)), d[k..])
  }

  /** A hash fails only at the very end; cut short, it is padded with zeros. */
  function ReadHash(d: Bytes): Read<Hash> {
    if d == [] then Fail
    else if |d| < HASH_LENGTH then Got(Hash(d + Zeros(HASH_LENGTH - |d|)), [])
    else Got(Hash(d[..HASH_LENGTH]), d[HASH_LENGTH..])
  }

  function ReadOutput(d: Bytes): Read<UndoOutput> {
    var sh := ReadHash(d);
    if sh.Fail? then Fail else
    var txid := ReadHash(sh.rest);
    if txid.Fail? then Fail else
    var vout := ReadWord(txid.rest, 4);
    if vout.Fail? then Fail else
    var value := ReadSigned(vout.rest, 8);
    if value.Fail? then Fail else
    var height := ReadSigned(value.rest, 4);
    if height.Fail? then Fail else
    var hash := ReadHash(height.rest);
    if hash.Fail? then Fail else
    Got(UndoOutput(sh.value, OutPoint(txid.value, vout.value), value.value, height.value, hash.value), hash.rest)
  }

  function ReadHistory(d: Bytes): Read<HistoryKey> {
    var sh := ReadHash(d);
    if sh.Fail? then Fail else
    var height := ReadSigned(sh.rest, 4);
    if height.Fail? then Fail else
    var txIndex := ReadWord(height.rest, 4);
    if txIndex.Fail? then Fail else
    var index := ReadWord(txIndex.rest, 4);
    if index.Fail? then Fail else
    Got(HistoryKey(sh.value, height.value, txIndex.value, index.value), index.rest)
  }

  function ReadList<T>(read: Bytes -> Read<T>, d: Bytes, n: nat): Read<seq<T>>
    decreases n, d
  {
    if n == 0 then Got([], d) else
    var first := read(d);
    if first.Fail? then Fail else Joined([first.value], ReadList(read, first.rest, n - 1))
  }

  function Joined<T>(done: seq<T>, r: Read<seq<T>>): Read<seq<T>> {
    if r.Fail? then Fail else Got(done + r.value, r.rest)
  }

  datatype Heading = Heading(height: int, blockHash: Hash, prevHash: Hash, spent: nat, created: nat, history: nat)

  function ReadHead(d: Bytes): Read<Heading> {
    var height := ReadSigned(d, 4);
    if height.Fail? then Fail else
    var hash := ReadHash(height.rest);
    if hash.Fail? then Fail else
    var prev := ReadHash(hash.rest);
    if prev.Fail? then Fail else
    var spent := ReadWord(prev.rest, 4);
    if spent.Fail? then Fail else
    var created := ReadWord(spent.rest, 4);
    if created.Fail? then Fail else
    var history := ReadWord(created.rest, 4);
    if history.Fail? then Fail else
    Got(Heading(height.value, hash.value, prev.value, spent.value, created.value, history.value), history.rest)
  }

  function Decoded(d: Bytes): Option<UndoBlock> {
    var head := ReadHead(d);
    if head.Fail? then None else
    var spent := ReadList(ReadOutput, head.rest, head.value.spent);
    if spent.Fail? then None else
    var created := ReadList(ReadOutput, spent.rest, head.value.created);
    if created.Fail? then None else
    var history := ReadList(ReadHistory, created.rest, head.value.history);
    if history.Fail? then None else
    Some(UndoBlock(head.value.height, head.value.blockHash, head.value.prevHash, spent.value, created.value, history.value))
  }

  // ----- the round trip

  predicate FitsOutput(o: UndoOutput) {
    SizedOutput(o) && o.out.vout < Pow256(4) && FitsWord(o.value, 8) && FitsWord(o.height, 4)
  }

  predicate FitsHistory(h: HistoryKey) {
    IsHash(h.scripthash) && FitsWord(h.height, 4) && h.txIndex < Pow256(4) && h.index < Pow256(4)
  }

  /** Every field within the width it is stored in: what the record's types and the counts allow. */
  ghost predicate Fits(u: UndoBlock) {
    && IsHash(u.blockHash) && IsHash(u.prevHash) && FitsWord(u.height, 4)
    && |u.spent| < Pow256(4) && |u.created| < Pow256(4) && |u.history| < Pow256(4)
    && (forall o {:trigger o in u.spent} :: o in u.spent ==> FitsOutput(o))
    && (forall o {:trigger o in u.created} :: o in u.created ==> FitsOutput(o))
    && (forall h {:trigger h in u.history} :: h in u.history ==> FitsHistory(h))
  }

  lemma {:induction false} WordBack(n: nat, k: nat, tail: Bytes)
    requires n < Pow256(k)
    ensures ReadWord(WordBytes(n, k) + tail, k) == Got(n, tail)
  {
    WordLength(n, k);
    NumberOfWord(n, k);
    assert (WordBytes(n, k) + tail)[..k] == WordBytes(n, k) && (WordBytes(n, k) + tail)[k..] == tail;
  }

  lemma {:induction false} SignedBack(n: int, k: nat, tail: Bytes)
    requires FitsWord(n, k)
    ensures ReadSigned(WordBytes(n, k) + tail, k) == Got(n, tail)
  {
    WordLength(n, k);
    NumberOfWord(n, k);
    assert (WordBytes(n, k) + tail)[..k] == WordBytes(n, k) && (WordBytes(n, k) + tail)[k..] == tail;
  }

  lemma {:induction false} HashBack(h: Hash, tail: Bytes)
    requires IsHash(h)
    ensures ReadHash(h.bytes + tail) == Got(h, tail)
  {
    assert (h.bytes + tail)[..HASH_LENGTH] == h.bytes && (h.bytes + tail)[HASH_LENGTH..] == tail;
  }

  lemma {:induction false} OutputBack(o: UndoOutput, tail: Bytes)
    requires FitsOutput(o)
    ensures ReadOutput(PutOutput(o) + tail) == Got(o, tail)
  {
    var f := o.blockHash.bytes + tail;
    var e := WordBytes(o.height, 4) + f;
    var d := WordBytes(o.value, 8) + e;
    var c := WordBytes(o.out.vout, 4) + d;
    var b := o.out.txid.bytes + c;
    assert PutOutput(o) + tail == o.scripthash.bytes + b;
    HashBack(o.scripthash, b);
    HashBack(o.out.txid, c);
    WordBack(o.out.vout, 4, d);
    SignedBack(o.value, 8, e);
    SignedBack(o.height, 4, f);
    HashBack(o.blockHash, tail);
  }

  lemma {:induction false} HistoryBack(h: HistoryKey, tail: Bytes)
    requires FitsHistory(h)
    ensures ReadHistory(PutHistory(h) + tail) == Got(h, tail)
  {
    var d := WordBytes(h.index, 4) + tail;
    var c := WordBytes(h.txIndex, 4) + d;
    var b := WordBytes(h.height, 4) + c;
    assert PutHistory(h) + tail == h.scripthash.bytes + b;
    HashBack(h.scripthash, b);
    SignedBack(h.height, 4, c);
    WordBack(h.txIndex, 4, d);
    WordBack(h.index, 4, tail);
  }

  /** Reading gives back x and what follows it. */
  ghost predicate GivesBack<T>(read: Bytes -> Read<T>, put: T -> Bytes, x: T) {
    forall tail {:trigger read(put(x) + tail)} :: read(put(x) + tail) == Got(x, tail)
  }

  lemma {:induction false} ListBack<T>(read: Bytes -> Read<T>, put: T -> Bytes, s: seq<T>, tail: Bytes)
    requires forall x {:trigger x in s} :: x in s ==> GivesBack(read, put, x)
    ensures ReadList(read, PutList(put, s) + tail, |s|) == Got(s, tail)
  {
    if s == [] {
      assert PutList(put, s) + tail == tail;
    } else {
      assert s[0] in s && forall x :: x in s[1..] ==> x in s;
      var rest := PutList(put, s[1..]);
      ListBack(read, put, s[1..], tail);
      Regroup(put(s[0]), rest, tail);
      assert read(put(s[0]) + (rest + tail)) == Got(s[0], rest + tail);
      assert s == [s[0]] + s[1..];
    }
  }

  lemma {:induction false} OutputsBack(s: seq<UndoOutput>, tail: Bytes)
    requires forall o {:trigger o in s} :: o in s ==> FitsOutput(o)
    ensures ReadList(ReadOutput, PutList(PutOutput, s) + tail, |s|) == Got(s, tail)
  {
    forall o | o in s ensures GivesBack(ReadOutput, PutOutput, o) {
      forall rest ensures ReadOutput(PutOutput(o) + rest) == Got(o, rest) {
        OutputBack(o, rest);
      }
    }
    ListBack(ReadOutput, PutOutput, s, tail);
  }

  lemma {:induction false} HistoriesBack(s: seq<HistoryKey>, tail: Bytes)
    requires forall h {:trigger h in s} :: h in s ==> FitsHistory(h)
    ensures ReadList(ReadHistory, PutList(PutHistory, s) + tail, |s|) == Got(s, tail)
  {
    forall h | h in s ensures GivesBack(ReadHistory, PutHistory, h) {
      forall rest ensures ReadHistory(PutHistory(h) + rest) == Got(h, rest) {
        HistoryBack(h, rest);
      }
    }
    ListBack(ReadHistory, PutHistory, s, tail);
  }

  lemma {:induction false} HeadBack(u: UndoBlock, tail: Bytes)
    requires Fits(u)
    ensures ReadHead(Head(u) + tail) == Got(Heading(u.height, u.blockHash, u.prevHash, |u.spent|, |u.created|, |u.history|), tail)
  {
    var f := WordBytes(|u.history|, 4) + tail;
    var e := WordBytes(|u.created|, 4) + f;
    var d := WordBytes(|u.spent|, 4) + e;
    var c := u.prevHash.bytes + d;
    var b := u.blockHash.bytes + c;
    assert Head(u) + tail == WordBytes(u.height, 4) + b;
    SignedBack(u.height, 4, b);
    HashBack(u.blockHash, c);
    HashBack(u.prevHash, d);
    WordBack(|u.spent|, 4, e);
    WordBack(|u.created|, 4, f);
    WordBack(|u.history|, 4, tail);
  }

  /** Decoding inverts encoding, negative values and heights included. */
  lemma {:induction false} UndoRoundTrip(u: UndoBlock)
    requires Fits(u)
    ensures Encoded(u).Some? && Decoded(Encoded(u).value) == Some(u)
    ensures |Encoded(u).value| == 80 + 112 * (|u.spent| + |u.created|) + 44 * |u.history|
  {
    var d := PutList(PutHistory, u.history) + [];
    var c := PutList(PutOutput, u.created) + d;
    var b := PutList(PutOutput, u.spent) + c;
    HeadBack(u, b);
    OutputsBack(u.spent, c);
    OutputsBack(u.created, d);
    HistoriesBack(u.history, []);
    DecodedFrom(Head(u) + b, Heading(u.height, u.blockHash, u.prevHash, |u.spent|, |u.created|, |u.history|), b, c, d, u);
    EncodedAs(u, b, c, d);
    EncodedLength(u);
  }

  lemma {:induction false} EncodedAs(u: UndoBlock, b: Bytes, c: Bytes, d: Bytes)
    requires WellSized(u) && d == PutList(PutHistory, u.history) + []
    requires c == PutList(PutOutput, u.created) + d && b == PutList(PutOutput, u.spent) + c
    ensures Encoded(u) == Some(Head(u) + b)
  {
    assert PutList(PutHistory, u.history) + [] == PutList(PutHistory, u.history);
    Regroup(Head(u), PutList(PutOutput, u.spent), c);
    Regroup(Head(u) + PutList(PutOutput, u.spent), PutList(PutOutput, u.created), d);
  }

  // ----- the layout, byte by byte

  /** Four bytes as a number, the lowest first. */
  function Little(b: Bytes): nat
    requires |b| == 4
  {
    b[0] as nat + 0x100 * b[1] as nat + 0x1_0000 * b[2] as nat + 0x100_0000 * b[3] as nat
  }

  lemma {:induction false} WordLayout(n: int)
    requires -0x8000_0000 <= n < 0x1_0000_0000
    ensures |WordBytes(n, 4)| == 4 && Little(WordBytes(n, 4)) == if n < 0 then n + 0x1_0000_0000 else n
  {
    WordLength(n, 4);
    assert Pow256(4) == 0x1_0000_0000;
    NumberOfWord(n, 4);
    var b := WordBytes(n, 4);
    assert Number(b) == b[0] as nat + 256 * Number(b[1..]);
    assert Number(b[1..]) == b[1] as nat + 256 * Number(b[2..]);
    assert Number(b[2..]) == b[2] as nat + 256 * Number(b[3..]);
    assert Number(b[3..]) == b[3] as nat;
  }

  lemma {:induction false} HeadFirst(u: UndoBlock)
    requires WellSized(u)
    ensures |Encoded(u).value| >= 80 && Encoded(u).value[..80] == Head(u)
  {
    EncodedLength(u);
    WordLength(u.height, 4);
    WordLength(|u.spent|, 4);
    WordLength(|u.created|, 4);
    WordLength(|u.history|, 4);
  }

  lemma {:induction false} HeadPieces(u: UndoBlock)
    requires WellSized(u)
    ensures var h := Head(u);
            && |h| == 80 && h[..4] == WordBytes(u.height, 4) && h[4..36] == u.blockHash.bytes && h[36..68] == u.prevHash.bytes
            && h[68..72] == WordBytes(|u.spent|, 4) && h[72..76] == WordBytes(|u.created|, 4) && h[76..80] == WordBytes(|u.history|, 4)
  {
    WordLength(u.height, 4);
    WordLength(|u.spent|, 4);
    WordLength(|u.created|, 4);
    WordLength(|u.history|, 4);
  }

  /** The heading: height, hash, previous hash and three counts. */
  lemma {:induction false} HeadLayout(u: UndoBlock)
    requires Fits(u)
    ensures |Encoded(u).value| >= 80
    ensures var h := Encoded(u).value[..80];
            && h[4..36] == u.blockHash.bytes && h[36..68] == u.prevHash.bytes && (u.height >= 0 ==> Little(h[..4]) == u.height)
            && Little(h[68..72]) == |u.spent| && Little(h[72..76]) == |u.created| && Little(h[76..80]) == |u.history|
  {
    assert Pow256(4) == 0x1_0000_0000;
    WordLayout(u.height);
    WordLayout(|u.spent|);
    WordLayout(|u.created|);
    WordLayout(|u.history|);
    HeadFirst(u);
    HeadPieces(u);
  }

  /** An output: scripthash, txid, position, value in eight bytes, height, block hash. */
  lemma {:induction false} OutputLayout(o: UndoOutput)
    requires FitsOutput(o)
    ensures var b := PutOutput(o); |b| == 112 && b[..32] == o.scripthash.bytes && b[32..64] == o.out.txid.bytes && b[80..] == o.blockHash.bytes
    ensures Little(PutOutput(o)[64..68]) == o.out.vout && (o.height >= 0 ==> Little(PutOutput(o)[76..80]) == o.height)
    ensures PutOutput(o)[68..76] == WordBytes(o.value, 8)
  {
    assert Pow256(4) == 0x1_0000_0000;
    WordLayout(o.out.vout);
    WordLayout(o.height);
    OutputPieces(o);
  }

  lemma {:induction false} OutputPieces(o: UndoOutput)
    requires SizedOutput(o)
    ensures var b := PutOutput(o);
            && |b| == 112 && b[..32] == o.scripthash.bytes && b[32..64] == o.out.txid.bytes && b[64..68] == WordBytes(o.out.vout, 4)
            && b[68..76] == WordBytes(o.value, 8) && b[76..80] == WordBytes(o.height, 4) && b[80..] == o.blockHash.bytes
  {
    WordLength(o.out.vout, 4);
    WordLength(o.height, 4);
    WordLength(o.value, 8);
  }

  lemma {:induction false} HistoryLayout(h: HistoryKey)
    requires FitsHistory(h)
    ensures var b := PutHistory(h); |b| == 44 && b[..32] == h.scripthash.bytes
    ensures h.height >= 0 ==> Little(PutHistory(h)[32..36]) == h.height
    ensures Little(PutHistory(h)[36..40]) == h.txIndex && Little(PutHistory(h)[40..44]) == h.index
  {
    assert Pow256(4) == 0x1_0000_0000;
    WordLayout(h.height);
    WordLayout(h.txIndex);
    WordLayout(h.index);
    var b := PutHistory(h);
    assert b[32..36] == WordBytes(h.height, 4) && b[36..40] == WordBytes(h.txIndex, 4) && b[40..44] == WordBytes(h.index, 4);
  }

  lemma {:induction false} ListSplit<T>(put: T -> Bytes, s: seq<T>, i: nat)
    requires i <= |s|
    ensures PutList(put, s) == PutList(put, s[..i]) + PutList(put, s[i..])
  {
    if i > 0 {
      ListSplit(put, s[1..], i - 1);
      assert s[..i] == [s[0]] + s[1..][..i - 1] && s[1..][i - 1..] == s[i..];
      Regroup(put(s[0]), PutList(put, s[1..][..i - 1]), PutList(put, s[i..]));
    }
  }

  /** What lies at k in a part of d that begins at a lies at a + k in d. */
  lemma {:induction false} PlaceIn(d: Bytes, a: nat, b: nat, part: Bytes, k: nat, n: nat, at: nat, x: Bytes)
    requires a <= b <= |d| && d[a..b] == part && k + n <= |part| && at == a + k && part[k..k + n] == x
    ensures at + n <= |d| && d[at..at + n] == x
  {
    var y := d[at..at + n];
    assert |x| == |y| && forall i :: 0 <= i < n ==> x[i] == y[i];
  }

  /** Entry i of each list lies at its place: spent outputs after the heading, created ones after them, history last. */
  lemma {:induction false} SpentLayout(u: UndoBlock, i: nat)
    requires WellSized(u) && i < |u.spent|
    ensures var at := 80 + 112 * i;
            |Encoded(u).value| >= at + 112 && Encoded(u).value[at..at + 112] == PutOutput(u.spent[i])
  {
    var d, b, part := Encoded(u).value, 80 + 112 * |u.spent|, PutList(PutOutput, u.spent);
    assert 80 <= b <= |d| && d[80..b] == part by {
      PartsAt(u);
    }
    assert |part| >= 112 * i + 112 && part[112 * i..112 * i + 112] == PutOutput(u.spent[i]) by {
      OutputPlace(u.spent, i);
    }
    PlaceIn(d, 80, b, part, 112 * i, 112, 80 + 112 * i, PutOutput(u.spent[i]));
  }

  lemma {:induction false} CreatedLayout(u: UndoBlock, i: nat)
    requires WellSized(u) && i < |u.created|
    ensures var at := 80 + 112 * |u.spent| + 112 * i;
            |Encoded(u).value| >= at + 112 && Encoded(u).value[at..at + 112] == PutOutput(u.created[i])
  {
    var d, a, b, part := Encoded(u).value, 80 + 112 * |u.spent|, 80 + 112 * (|u.spent| + |u.created|), PutList(PutOutput, u.created);
    assert a <= b <= |d| && d[a..b] == part by {
      PartsAt(u);
    }
    assert |part| >= 112 * i + 112 && part[112 * i..112 * i + 112] == PutOutput(u.created[i]) by {
      OutputPlace(u.created, i);
    }
    PlaceIn(d, a, b, part, 112 * i, 112, 80 + 112 * |u.spent| + 112 * i, PutOutput(u.created[i]));
  }

  lemma {:induction false} EntryLayout(u: UndoBlock, i: nat)
    requires WellSized(u) && i < |u.history|
    ensures var at := 80 + 112 * (|u.spent| + |u.created|) + 44 * i;
            |Encoded(u).value| >= at + 44 && Encoded(u).value[at..at + 44] == PutHistory(u.history[i])
  {
    PartsAt(u);
    HistoryPlace(u.history, i);
    var d, b := Encoded(u).value, 80 + 112 * (|u.spent| + |u.created|);
    assert d[b..] == d[b..|d|];
    PlaceIn(d, b, |d|, PutList(PutHistory, u.history), 44 * i, 44, b + 44 * i, PutHistory(u.history[i]));
  }

  lemma {:induction false} PartsAt(u: UndoBlock)
    requires WellSized(u)
    ensures var d, a, b := Encoded(u).value, 80 + 112 * |u.spent|, 80 + 112 * (|u.spent| + |u.created|);
            && |d| >= b >= a && d[80..a] == PutList(PutOutput, u.spent) && d[a..b] == PutList(PutOutput, u.created)
            && d[b..] == PutList(PutHistory, u.history)
  {
    EncodedLength(u);
    OutputsLength(u.spent);
    OutputsLength(u.created);
    WordLength(u.height, 4);
    WordLength(|u.spent|, 4);
    WordLength(|u.created|, 4);
    WordLength(|u.history|, 4);
    var d, a, b := Encoded(u).value, 80 + 112 * |u.spent|, 80 + 112 * (|u.spent| + |u.created|);
    var x, y, z := PutList(PutOutput, u.spent), PutList(PutOutput, u.created), PutList(PutHistory, u.history);
    assert |Head(u)| == 80 && d == Head(u) + x + y + z;
  }

  lemma {:induction false} OutputPlace(s: seq<UndoOutput>, i: nat)
    requires i < |s| && forall o {:trigger o in s} :: o in s ==> SizedOutput(o)
    ensures |PutList(PutOutput, s)| >= 112 * i + 112 && PutList(PutOutput, s)[112 * i..112 * i + 112] == PutOutput(s[i])
  {
    assert forall o :: o in s[..i] ==> o in s;
    assert s[i] in s;
    OutputsLength(s[..i]);
    OutputsLength([s[i]]);
    ListSplit(PutOutput, s, i);
    ListSplit(PutOutput, s[i..], 1);
    assert s[i..][..1] == [s[i]];
    assert PutList(PutOutput, [s[i]]) == PutOutput(s[i]) + [];
  }

  lemma {:induction false} HistoryPlace(s: seq<HistoryKey>, i: nat)
    requires i < |s| && forall h {:trigger h in s} :: h in s ==> IsHash(h.scripthash)
    ensures |PutList(PutHistory, s)| >= 44 * i + 44 && PutList(PutHistory, s)[44 * i..44 * i + 44] == PutHistory(s[i])
  {
    assert forall h :: h in s[..i] ==> h in s;
    assert s[i] in s;
    HistoriesLength(s[..i]);
    HistoriesLength([s[i]]);
    ListSplit(PutHistory, s, i);
    ListSplit(PutHistory, s[i..], 1);
    assert s[i..][..1] == [s[i]];
    assert PutList(PutHistory, [s[i]]) == PutHistory(s[i]) + [];
  }

  lemma {:induction false} OneMore(size: nat, n: nat)
    ensures size * (n + 1) == size + size * n
  {
  }

  lemma {:induction false} ListLength<T>(put: T -> Bytes, s: seq<T>, size: nat)
    requires forall x {:trigger x in s} :: x in s ==> |put(x)| == size
    ensures |PutList(put, s)| == size * |s|
  {
    if s != [] {
      assert s[0] in s && forall x :: x in s[1..] ==> x in s;
      ListLength(put, s[1..], size);
      OneMore(size, |s[1..]|);
      assert |put(s[0])| == size;
    }
  }

  lemma {:induction false} OutputsLength(s: seq<UndoOutput>)
    requires forall o {:trigger o in s} :: o in s ==> SizedOutput(o)
    ensures |PutList(PutOutput, s)| == 112 * |s|
  {
    forall o | o in s ensures |PutOutput(o)| == 112 {
      WordLength(o.out.vout, 4);
      WordLength(o.value, 8);
      WordLength(o.height, 4);
    }
    ListLength(PutOutput, s, 112);
  }

  lemma {:induction false} HistoriesLength(s: seq<HistoryKey>)
    requires forall h {:trigger h in s} :: h in s ==> IsHash(h.scripthash)
    ensures |PutList(PutHistory, s)| == 44 * |s|
  {
    forall h | h in s ensures |PutHistory(h)| == 44 {
      WordLength(h.height, 4);
      WordLength(h.txIndex, 4);
      WordLength(h.index, 4);
    }
    ListLength(PutHistory, s, 44);
  }

  lemma {:induction false} EncodedLength(u: UndoBlock)
    requires WellSized(u)
    ensures |Encoded(u).value| == 80 + 112 * (|u.spent| + |u.created|) + 44 * |u.history|
  {
    WordLength(u.height, 4);
    WordLength(|u.spent|, 4);
    WordLength(|u.created|, 4);
    WordLength(|u.history|, 4);
    OutputsLength(u.spent);
    OutputsLength(u.created);
    HistoriesLength(u.history);
  }

  // ----- and back

  lemma {:induction false} WordAgain(d: Bytes, k: nat)
    requires |d| >= k
    ensures ReadWord(d, k) == Got(Number(d[..k]), d[k..])
    ensures Number(d[..k]) < Pow256(k) && WordBytes(Number(d[..k]), k) == d[..k]
    ensures FitsWord(Signed(Number(d[..k]), Pow256(k)), k) && WordBytes(Signed(Number(d[..k]), Pow256(k)), k) == d[..k]
  {
    WordOfNumber(d[..k]);
    WordOfSigned(Number(d[..k]), k);
  }

  lemma {:induction false} OutputAgain(d: Bytes)
    requires |d| >= 112
    ensures ReadOutput(d).Got? && ReadOutput(d).rest == d[112..]
    ensures FitsOutput(ReadOutput(d).value) && PutOutput(ReadOutput(d).value) == d[..112]
  {
    var b := d[32..];
    var c := b[32..];
    var e := c[4..];
    var f := e[8..];
    var g := f[4..];
    WordAgain(c, 4);
    WordAgain(e, 8);
    WordAgain(f, 4);
    assert d[..112] == d[..32] + b[..32] + c[..4] + e[..8] + f[..4] + g[..32];
  }

  lemma {:induction false} HistoryAgain(d: Bytes)
    requires |d| >= 44
    ensures ReadHistory(d).Got? && ReadHistory(d).rest == d[44..]
    ensures FitsHistory(ReadHistory(d).value) && PutHistory(ReadHistory(d).value) == d[..44]
  {
    var b := d[32..];
    var c := b[4..];
    var e := c[4..];
    WordAgain(b, 4);
    WordAgain(c, 4);
    WordAgain(e, 4);
    assert d[..44] == d[..32] + b[..4] + c[..4] + e[..4];
  }

  /** Reading `size` bytes and writing what was read gives them back. */
  ghost predicate GivesAgain<T>(read: Bytes -> Read<T>, put: T -> Bytes, fits: T -> bool, size: nat) {
    forall d {:trigger read(d)} :: |d| >= size ==>
      read(d).Got? && read(d).rest == d[size..] && fits(read(d).value) && put(read(d).value) == d[..size]
  }

  lemma {:induction false} ListAgain<T>(read: Bytes -> Read<T>, put: T -> Bytes, fits: T -> bool, size: nat, d: Bytes, n: nat)
    requires GivesAgain(read, put, fits, size) && |d| >= size * n
    ensures var r := ReadList(read, d, n);
            && r.Got? && r.rest == d[size * n..] && |r.value| == n && PutList(put, r.value) == d[..size * n]
            && forall x {:trigger x in r.value} :: x in r.value ==> fits(x)
    decreases n
  {
    if n > 0 {
      OneMore(size, n - 1);
      var first := read(d);
      ListAgain(read, put, fits, size, first.rest, n - 1);
      var more := ReadList(read, first.rest, n - 1);
      assert ([first.value] + more.value)[1..] == more.value;
      TwoPieces(d, size, size * (n - 1));
    }
  }

  lemma {:induction false} TwoPieces(d: Bytes, j: nat, k: nat)
    requires |d| >= j + k
    ensures d[..j + k] == d[..j] + d[j..][..k] && d[j..][k..] == d[j + k..]
  {
  }

  // ----- what is accepted

  function Drop(d: Bytes, k: nat): Bytes {
    if |d| < k then [] else d[k..]
  }

  lemma {:induction false} DropDrop(d: Bytes, j: nat, k: nat)
    ensures Drop(Drop(d, j), k) == Drop(d, j + k)
    ensures |Drop(d, j)| == if |d| < j then 0 else |d| - j
  {
  }

  /** How much of the data an output takes, and whether there is one. */
  lemma {:induction false} OutputNeeds(d: Bytes)
    ensures ReadOutput(d).Got? <==> |d| > 80
    ensures ReadOutput(d).Got? ==> ReadOutput(d).rest == Drop(d, 112)
  {
  }

  lemma {:induction false} HistoryNeeds(d: Bytes)
    ensures ReadHistory(d).Got? <==> |d| >= 44
    ensures ReadHistory(d).Got? ==> ReadHistory(d).rest == Drop(d, 44)
  {
  }

  lemma {:induction false} HeadNeeds(d: Bytes)
    ensures ReadHead(d).Got? <==> |d| >= 80
    ensures ReadHead(d).Got? ==> ReadHead(d).rest == Drop(d, 80)
  {
  }

  /** Each record takes `size` bytes, of which all but the last `size - least` must be there. */
  ghost predicate Takes<T>(read: Bytes -> Read<T>, size: nat, least: nat) {
    forall d {:trigger read(d)} :: (read(d).Got? <==> |d| >= least) && (read(d).Got? ==> read(d).rest == Drop(d, size))
  }

  lemma {:induction false} ListNeeds<T>(read: Bytes -> Read<T>, size: nat, least: nat, d: Bytes, n: nat)
    requires 0 < least <= size && Takes(read, size, least)
    ensures ReadList(read, d, n).Got? <==> n == 0 || |d| >= size * (n - 1) + least
    ensures ReadList(read, d, n).Got? ==> ReadList(read, d, n).rest == Drop(d, size * n)
    decreases n
  {
    if n > 0 {
      ListNeeds(read, size, least, Drop(d, size), n - 1);
      DropDrop(d, size, size * (n - 1));
      assert size * n == size + size * (n - 1);
      assert n > 1 ==> size * (n - 1) == size + size * (n - 2);
    }
  }

  lemma {:induction false} OutputsNeed(d: Bytes, n: nat)
    ensures ReadList(ReadOutput, d, n).Got? <==> n == 0 || |d| > 112 * n - 32
    ensures ReadList(ReadOutput, d, n).Got? ==> ReadList(ReadOutput, d, n).rest == Drop(d, 112 * n)
  {
    forall x: Bytes ensures (ReadOutput(x).Got? <==> |x| >= 81) && (ReadOutput(x).Got? ==> ReadOutput(x).rest == Drop(x, 112)) {
      OutputNeeds(x);
    }
    ListNeeds(ReadOutput, 112, 81, d, n);
  }

  lemma {:induction false} HistoriesNeed(d: Bytes, n: nat)
    ensures ReadList(ReadHistory, d, n).Got? <==> |d| >= 44 * n
  {
    forall x: Bytes ensures (ReadHistory(x).Got? <==> |x| >= 44) && (ReadHistory(x).Got? ==> ReadHistory(x).rest == Drop(x, 44)) {
      HistoryNeeds(x);
    }
    ListNeeds(ReadHistory, 44, 44, d, n);
  }

  /** The counts in the heading. */
  function Outputs(d: Bytes): nat
    requires |d| >= 80
  {
    Number(d[68..72]) + Number(d[72..76])
  }

  function Histories(d: Bytes): nat
    requires |d| >= 80
  {
    Number(d[76..80])
  }

  lemma {:induction false} HeadCounts(d: Bytes)
    requires |d| >= 80
    ensures ReadHead(d).Got? && ReadHead(d).value.spent + ReadHead(d).value.created == Outputs(d)
    ensures ReadHead(d).value.history == Histories(d)
  {
    var a := d[4..];
    var b := a[32..];
    var c := b[32..];
    assert c[..4] == d[68..72];
    assert c[4..][..4] == d[72..76];
    assert c[4..][4..][..4] == d[76..80];
  }

  /** Data is accepted exactly when it is long enough for its counts, give or take the last 31 bytes of a closing hash. */
  lemma {:induction false} DecodeAccepts(d: Bytes)
    ensures Decoded(d).Some? <==>
            && |d| >= 80
            && var n, h := Outputs(d), Histories(d);
               if h > 0 then |d| >= 80 + 112 * n + 44 * h else n == 0 || |d| > 80 + 112 * n - 32
  {
    HeadNeeds(d);
    if |d| >= 80 {
      HeadCounts(d);
      var head := ReadHead(d);
      OutputsNeed(head.rest, head.value.spent);
      var spent := ReadList(ReadOutput, head.rest, head.value.spent);
      if spent.Got? {
        OutputsNeed(spent.rest, head.value.created);
        var created := ReadList(ReadOutput, spent.rest, head.value.created);
        if created.Got? {
          HistoriesNeed(created.rest, head.value.history);
        }
      }
    }
  }

  /** A record cut short is refused, unless it ends in an output and lost only part of that output's block hash. */
  lemma {:induction false} CutShort(u: UndoBlock, m: nat)
    requires Fits(u) && Encoded(u).Some? && m < |Encoded(u).value|
    ensures Decoded(Encoded(u).value[..m]).Some? <==>
            u.history == [] && |u.spent| + |u.created| > 0 && |Encoded(u).value| - m < 32
  {
    EncodedLength(u);
    DecodeAccepts(Encoded(u).value[..m]);
    if m >= 80 {
      EncodedCounts(u);
      PrefixCounts(Encoded(u).value, m);
    }
  }

  lemma {:induction false} HeadFields(d: Bytes)
    requires |d| >= 80
    ensures ReadHead(d) == Got(Heading(Signed(Number(d[..4]), Pow256(4)), Hash(d[4..36]), Hash(d[36..68]),
                                       Number(d[68..72]), Number(d[72..76]), Number(d[76..80])), d[80..])
  {
    var a := d[4..];
    var b := a[32..];
    var c := b[32..];
    assert a[..32] == d[4..36] && b[..32] == d[36..68];
    assert c[..4] == d[68..72] && c[4..][..4] == d[72..76] && c[4..][4..][..4] == d[76..80];
    assert c[4..][4..][4..] == d[80..];
  }

  lemma {:induction false} HeadAgain(d: Bytes, u: UndoBlock)
    requires |d| >= 80 && ReadHead(d).Got?
    requires ReadHead(d).value == Heading(u.height, u.blockHash, u.prevHash, |u.spent|, |u.created|, |u.history|)
    ensures IsHash(u.blockHash) && IsHash(u.prevHash) && FitsWord(u.height, 4)
    ensures |u.spent| < Pow256(4) && |u.created| < Pow256(4) && |u.history| < Pow256(4)
    ensures Head(u) == d[..80] && ReadHead(d).rest == d[80..]
  {
    HeadFields(d);
    FieldAgain(d, 0, 4);
    FieldAgain(d, 68, 72);
    FieldAgain(d, 72, 76);
    FieldAgain(d, 76, 80);
    assert d[..80] == d[0..4] + d[4..36] + d[36..68] + d[68..72] + d[72..76] + d[76..80];
  }

  lemma {:induction false} FieldAgain(d: Bytes, i: nat, j: nat)
    requires i <= j <= |d|
    ensures var w, k := d[i..j], j - i;
            && Number(w) < Pow256(k) && WordBytes(Number(w), k) == w
            && FitsWord(Signed(Number(w), Pow256(k)), k) && WordBytes(Signed(Number(w), Pow256(k)), k) == w
  {
    WordAgain(d[i..j], j - i);
    assert d[i..j][..j - i] == d[i..j];
  }

  lemma {:induction false} OutputsAgain(d: Bytes, n: nat)
    requires |d| >= 112 * n
    ensures var r := ReadList(ReadOutput, d, n);
            && r.Got? && r.rest == d[112 * n..] && |r.value| == n && PutList(PutOutput, r.value) == d[..112 * n]
            && forall o {:trigger o in r.value} :: o in r.value ==> FitsOutput(o)
  {
    forall x: Bytes | |x| >= 112
      ensures ReadOutput(x).Got? && ReadOutput(x).rest == x[112..]
      ensures FitsOutput(ReadOutput(x).value) && PutOutput(ReadOutput(x).value) == x[..112]
    {
      OutputAgain(x);
    }
    ListAgain(ReadOutput, PutOutput, FitsOutput, 112, d, n);
  }

  lemma {:induction false} HistoriesAgain(d: Bytes, n: nat)
    requires |d| >= 44 * n
    ensures var r := ReadList(ReadHistory, d, n);
            && r.Got? && r.rest == d[44 * n..] && |r.value| == n && PutList(PutHistory, r.value) == d[..44 * n]
            && forall h {:trigger h in r.value} :: h in r.value ==> FitsHistory(h)
  {
    forall x: Bytes | |x| >= 44
      ensures ReadHistory(x).Got? && ReadHistory(x).rest == x[44..]
      ensures FitsHistory(ReadHistory(x).value) && PutHistory(ReadHistory(x).value) == x[..44]
    {
      HistoryAgain(x);
    }
    ListAgain(ReadHistory, PutHistory, FitsHistory, 44, d, n);
  }

  /** Data of exactly the length its counts call for is the encoding of the record it decodes to. */
  lemma {:induction false} DecodedIsEncoded(d: Bytes)
    requires |d| >= 80 && |d| == 80 + 112 * Outputs(d) + 44 * Histories(d)
    ensures Decoded(d).Some? && Fits(Decoded(d).value) && Encoded(Decoded(d).value) == Some(d)
  {
    HeadNeeds(d);
    HeadCounts(d);
    var head := ReadHead(d).value;
    var a := d[80..];
    OutputsAgain(a, head.spent);
    var b := a[112 * head.spent..];
    OutputsAgain(b, head.created);
    var c := b[112 * head.created..];
    HistoriesAgain(c, head.history);
    var u := UndoBlock(head.height, head.blockHash, head.prevHash, ReadList(ReadOutput, a, head.spent).value,
                       ReadList(ReadOutput, b, head.created).value, ReadList(ReadHistory, c, head.history).value);
    DecodedFrom(d, head, a, b, c, u);
    HeadAgain(d, u);
    EncodedFrom(d, a, b, c, u);
  }

  lemma {:induction false} DecodedFrom(d: Bytes, head: Heading, a: Bytes, b: Bytes, c: Bytes, u: UndoBlock)
    requires ReadHead(d) == Got(head, a) && ReadList(ReadOutput, a, head.spent) == Got(u.spent, b)
    requires ReadList(ReadOutput, b, head.created) == Got(u.created, c) && ReadList(ReadHistory, c, head.history).Got?
    requires ReadList(ReadHistory, c, head.history).value == u.history
    requires u.height == head.height && u.blockHash == head.blockHash && u.prevHash == head.prevHash
    ensures Decoded(d) == Some(u)
  {
  }

  lemma {:induction false} EncodedFrom(d: Bytes, a: Bytes, b: Bytes, c: Bytes, u: UndoBlock)
    requires WellSized(u) && |d| == 80 + 112 * |u.spent| + 112 * |u.created| + 44 * |u.history|
    requires a == d[80..] && b == a[112 * |u.spent|..] && c == b[112 * |u.created|..]
    requires Head(u) == d[..80] && PutList(PutOutput, u.spent) == a[..112 * |u.spent|]
    requires PutList(PutOutput, u.created) == b[..112 * |u.created|] && PutList(PutHistory, u.history) == c[..44 * |u.history|]
    ensures Encoded(u) == Some(d)
  {
    Pieces(d, a, b, c, 112 * |u.spent|, 112 * |u.created|, 44 * |u.history|);
  }

  lemma {:induction false} Pieces(d: Bytes, a: Bytes, b: Bytes, c: Bytes, i: nat, j: nat, k: nat)
    requires |d| == 80 + i + j + k && a == d[80..] && b == a[i..] && c == b[j..]
    ensures d[..80] + a[..i] + b[..j] + c[..k] == d
  {
  }

  lemma {:induction false} EncodedCounts(u: UndoBlock)
    requires Fits(u) && Encoded(u).Some? && |Encoded(u).value| >= 80
    ensures Outputs(Encoded(u).value) == |u.spent| + |u.created| && Histories(Encoded(u).value) == |u.history|
  {
    var b := PutList(PutOutput, u.spent) + PutList(PutOutput, u.created) + PutList(PutHistory, u.history);
    Regroup(Head(u) + PutList(PutOutput, u.spent), PutList(PutOutput, u.created), PutList(PutHistory, u.history));
    Regroup(Head(u), PutList(PutOutput, u.spent), PutList(PutOutput, u.created) + PutList(PutHistory, u.history));
    Regroup(PutList(PutOutput, u.spent), PutList(PutOutput, u.created), PutList(PutHistory, u.history));
    HeadBack(u, b);
    CountsBack(u, Head(u) + b, b);
  }

  lemma {:induction false} CountsBack(u: UndoBlock, d: Bytes, rest: Bytes)
    requires |d| >= 80
    requires ReadHead(d) == Got(Heading(u.height, u.blockHash, u.prevHash, |u.spent|, |u.created|, |u.history|), rest)
    ensures Outputs(d) == |u.spent| + |u.created| && Histories(d) == |u.history|
  {
    HeadCounts(d);
  }

  lemma {:induction false} PrefixCounts(d: Bytes, m: nat)
    requires 80 <= m <= |d|
    ensures Outputs(d[..m]) == Outputs(d) && Histories(d[..m]) == Histories(d)
  {
    assert d[..m][68..72] == d[68..72];
    assert d[..m][72..76] == d[72..76];
    assert d[..m][76..80] == d[76..80];
  }

  // ----- the loops

  lemma {:induction false} PutListPlus<T>(put: T -> Bytes, s: seq<T>, x: T)
    ensures PutList(put, s + [x]) == PutList(put, s) + put(x)
  {
    if s == [] {
      assert [x][1..] == [] && s + [x] == [x] && PutList(put, [x]) == put(x) + [];
    } else {
      PutListPlus(put, s[1..], x);
      assert (s + [x])[1..] == s[1..] + [x];
      Regroup(put(s[0]), PutList(put, s[1..]), put(x));
    }
  }

  lemma {:induction false} OneMoreWritten<T>(put: T -> Bytes, buf: Bytes, s: seq<T>, i: nat)
    requires i < |s|
    ensures buf + PutList(put, s[..i]) + put(s[i]) == buf + PutList(put, s[..i + 1])
  {
    PutListPlus(put, s[..i], s[i]);
    assert s[..i + 1] == s[..i] + [s[i]];
    Regroup(buf, PutList(put, s[..i]), put(s[i]));
  }

  method WriteOutputs(buf0: Bytes, s: seq<UndoOutput>) returns (ok: bool, buf: Bytes)
    ensures ok <==> forall o {:trigger o in s} :: o in s ==> SizedOutput(o)
    ensures ok ==> buf == buf0 + PutList(PutOutput, s)
  {
    buf := buf0;
    for i := 0 to |s|
      invariant forall j :: 0 <= j < i ==> SizedOutput(s[j])
      invariant buf == buf0 + PutList(PutOutput, s[..i])
    {
      if !IsHash(s[i].scripthash) || !IsHash(s[i].out.txid) || !IsHash(s[i].blockHash) {
        assert s[i] in s;
        return false, buf;
      }
      OneMoreWritten(PutOutput, buf0, s, i);
      buf := buf + PutOutput(s[i]);
    }
    assert s[..|s|] == s;
    ok := true;
  }

  method WriteHistories(buf0: Bytes, s: seq<HistoryKey>) returns (ok: bool, buf: Bytes)
    ensures ok <==> forall h {:trigger h in s} :: h in s ==> IsHash(h.scripthash)
    ensures ok ==> buf == buf0 + PutList(PutHistory, s)
  {
    buf := buf0;
    for i := 0 to |s|
      invariant forall j :: 0 <= j < i ==> IsHash(s[j].scripthash)
      invariant buf == buf0 + PutList(PutHistory, s[..i])
    {
      if !IsHash(s[i].scripthash) {
        assert s[i] in s;
        return false, buf;
      }
      OneMoreWritten(PutHistory, buf0, s, i);
      buf := buf + PutHistory(s[i]);
    }
    assert s[..|s|] == s;
    ok := true;
  }

  method EncodeUndoBlock(u: UndoBlock) returns (r: Option<Bytes>)
    ensures r == Encoded(u)
  {
    if !IsHash(u.blockHash) || !IsHash(u.prevHash) {
      return None;
    }
    var buf := Head(u);
    var ok;
    ok, buf := WriteOutputs(buf, u.spent);
    if !ok {
      return None;
    }
    ok, buf := WriteOutputs(buf, u.created);
    if !ok {
      return None;
    }
    ok, buf := WriteHistories(buf, u.history);
    r := if ok then Some(buf) else None;
  }

  lemma {:induction false} JoinedLaws<T>(done: seq<T>, x: T, r: Read<seq<T>>)
    ensures Joined(done + [x], r) == Joined(done, Joined([x], r))
  {
    if r.Got? {
      assert done + [x] + r.value == done + ([x] + r.value);
    }
  }

  lemma {:induction false} JoinedNone<T>(r: Read<seq<T>>, done: seq<T>, rest: Bytes)
    ensures Joined([], r) == r
    ensures Joined(done, Got([], rest)) == Got(done, rest)
  {
    assert done + [] == done;
    if r.Got? {
      assert [] + r.value == r.value;
    }
  }

  /** Reads n records one after the other, until one fails. */
  method DecodeList<T>(read: Bytes -> Read<T>, d: Bytes, n: nat) returns (r: Read<seq<T>>)
    ensures r == ReadList(read, d, n)
  {
    var done: seq<T>, rest := [], d;
    JoinedNone(ReadList(read, d, n), [], d);
    for i := 0 to n
      invariant ReadList(read, d, n) == Joined(done, ReadList(read, rest, n - i))
    {
      var first := read(rest);
      if first.Fail? {
        return Fail;
      }
      JoinedLaws(done, first.value, ReadList(read, first.rest, n - i - 1));
      done, rest := done + [first.value], first.rest;
    }
    JoinedNone(ReadList(read, d, n), done, rest);
    r := Got(done, rest);
  }

  method DecodeUndoBlock(d: Bytes) returns (r: Option<UndoBlock>)
    ensures r == Decoded(d)
  {
    var head := ReadHead(d);
    if head.Fail? {
      return None;
    }
    var spent := DecodeList(ReadOutput, head.rest, head.value.spent);
    if spent.Fail? {
      return None;
    }
    var created := DecodeList(ReadOutput, spent.rest, head.value.created);
    if created.Fail? {
      return None;
    }
    var history := DecodeList(ReadHistory, created.rest, head.value.history);
    if history.Fail? {
      return None;
    }
    r := Some(UndoBlock(head.value.height, head.value.blockHash, head.value.prevHash,
                        spent.value, created.value, history.value));
  }
}
