/** Store keys as bytes: their layout, their order, and the range that a prefix selects. */
module Keys {
  import opened Types

  const I32 := 0x8000_0000

  // ----- 32-bit big-endian fields

  /** The two's-complement word of an integer. */
  function Unsigned(n: int): nat {
    n % U32
  }

  function PutUint32(n: nat): (r: Bytes)
    requires n < U32
    ensures |r| == 4
  {
    [(n / 0x100_0000) as byte, (n / 0x1_0000 % 0x100) as byte, (n / 0x100 % 0x100) as byte, (n % 0x100) as byte]
  }

  function Uint32(b: Bytes): (n: nat)
    requires |b| == 4
    ensures n < U32
  {
    b[0] as nat * 0x100_0000 + b[1] as nat * 0x1_0000 + b[2] as nat * 0x100 + b[3] as nat
  }

  lemma {:induction false} Uint32OfPut(n: nat)
    requires n < U32
    ensures Uint32(PutUint32(n)) == n
  {
    var a, b, c := n / 0x100, n / 0x1_0000, n / 0x100_0000;
    assert n == 0x100 * a + n % 0x100;
    assert a == 0x100 * b + a % 0x100 by { assert a / 0x100 == b; }
    assert b == 0x100 * c + b % 0x100 by { assert b / 0x100 == c; }
  }

  lemma {:induction false} PutOfUint32(b: Bytes)
    requires |b| == 4
    ensures PutUint32(Uint32(b)) == b
  {
    Uint32OfPut(Uint32(b));
    WordOrder(PutUint32(Uint32(b)), b);
  }

  lemma {:induction false} SignedOfUnsigned(n: int)
    requires -I32 <= n < I32
    ensures Signed(Unsigned(n), U32) == n && Unsigned(n) == if n < 0 then n + U32 else n
  {
  }

  // ----- history keys

  const HISTORY: byte := 0x68

  /** h + scripthash + height + txIndex + index; a scripthash of the wrong length is refused. */
  function MakeHistoryKey(scripthash: Bytes, height: int, txIndex: nat, index: nat): Option<Bytes>
    requires txIndex < U32 && index < U32
  {
    if |scripthash| != HASH_LENGTH then None
    else Some([HISTORY] + scripthash + PutUint32(Unsigned(height)) + PutUint32(txIndex) + PutUint32(index))
  }

  datatype HistoryFields = HistoryFields(scripthash: Bytes, height: int, txIndex: nat, index: nat)

  function ParseHistoryKey(key: Bytes): Option<HistoryFields> {
    if |key| != 45 || key[0] != HISTORY then None
    else Some(HistoryFields(key[1..33], Signed(Uint32(key[33..37]), U32), Uint32(key[37..41]), Uint32(key[41..45])))
  }

  lemma {:induction false} HistoryRoundTrip(scripthash: Bytes, height: int, txIndex: nat, index: nat)
    requires |scripthash| == 32 && -I32 <= height < I32 && txIndex < U32 && index < U32
    ensures MakeHistoryKey(scripthash, height, txIndex, index).Some?
    ensures var key := MakeHistoryKey(scripthash, height, txIndex, index).value;
            |key| == 45 && key[0] == 0x68 && key[1..33] == scripthash
    ensures ParseHistoryKey(MakeHistoryKey(scripthash, height, txIndex, index).value) ==
            Some(HistoryFields(scripthash, height, txIndex, index))
  {
    var key := MakeHistoryKey(scripthash, height, txIndex, index).value;
    assert key[1..33] == scripthash;
    assert key[33..37] == PutUint32(Unsigned(height));
    assert key[37..41] == PutUint32(txIndex);
    assert key[41..45] == PutUint32(index);
    Uint32OfPut(Unsigned(height));
    Uint32OfPut(txIndex);
    Uint32OfPut(index);
    SignedOfUnsigned(height);
  }

  /** A key that parses is the one made from its fields. */
  lemma {:induction false} HistoryParseExact(key: Bytes)
    ensures ParseHistoryKey(key).Some? ==>
              var f := ParseHistoryKey(key).value;
              f.txIndex < U32 && f.index < U32 && MakeHistoryKey(f.scripthash, f.height, f.txIndex, f.index) == Some(key)
  {
    if ParseHistoryKey(key).Some? {
      PutOfUint32(key[33..37]);
      PutOfUint32(key[37..41]);
      PutOfUint32(key[41..45]);
      assert Unsigned(Signed(Uint32(key[33..37]), U32)) == Uint32(key[33..37]);
      assert key == [HISTORY] + key[1..33] + key[33..37] + key[37..41] + key[41..45];
    }
  }

  // ----- byte order

  predicate Less(a: Bytes, b: Bytes) {
    if b == [] then false
    else if a == [] then true
    else if a[0] != b[0] then a[0] < b[0]
    else Less(a[1..], b[1..])
  }

  predicate Starts(prefix: Bytes, key: Bytes) {
    |prefix| <= |key| && key[..|prefix|] == prefix
  }

  lemma {:induction false} LessAfterPrefix(p: Bytes, a: Bytes, b: Bytes)
    ensures Less(p + a, p + b) <==> Less(a, b)
  {
    if p == [] {
      assert p + a == a && p + b == b;
    } else {
      LessAfterPrefix(p[1..], a, b);
      assert (p + a)[1..] == p[1..] + a && (p + b)[1..] == p[1..] + b;
    }
  }

  lemma {:induction false} LessByFirst(p: byte, q: byte, a: Bytes, b: Bytes)
    ensures Less([p] + a, [q] + b) <==> p < q || (p == q && Less(a, b))
  {
    assert ([p] + a)[1..] == a && ([q] + b)[1..] == b;
  }

  /** Big-endian words compare as the numbers they stand for. */
  lemma {:induction false} LessByWord(m: nat, n: nat, a: Bytes, b: Bytes)
    requires m < U32 && n < U32
    ensures Less(PutUint32(m) + a, PutUint32(n) + b) <==> m < n || (m == n && Less(a, b))
  {
    var x, y := PutUint32(m), PutUint32(n);
    Uint32OfPut(m);
    Uint32OfPut(n);
    LessByFirst(x[3], y[3], a, b);
    LessByFirst(x[2], y[2], [x[3]] + a, [y[3]] + b);
    LessByFirst(x[1], y[1], [x[2]] + ([x[3]] + a), [y[2]] + ([y[3]] + b));
    LessByFirst(x[0], y[0], [x[1]] + ([x[2]] + ([x[3]] + a)), [y[1]] + ([y[2]] + ([y[3]] + b)));
    assert x + a == [x[0]] + ([x[1]] + ([x[2]] + ([x[3]] + a)));
    assert y + b == [y[0]] + ([y[1]] + ([y[2]] + ([y[3]] + b)));
    WordOrder(x, y);
  }

  lemma {:induction false} WordOrder(x: Bytes, y: Bytes)
    requires |x| == 4 && |y| == 4
    ensures Uint32(x) < Uint32(y) <==>
            || x[0] < y[0]
            || (x[0] == y[0] && (x[1] < y[1] || (x[1] == y[1] && (x[2] < y[2] || (x[2] == y[2] && x[3] < y[3])))))
    ensures Uint32(x) == Uint32(y) <==> x[0] == y[0] && x[1] == y[1] && x[2] == y[2] && x[3] == y[3]
  {
  }

  predicate Earlier(h: int, t: nat, i: nat, h': int, t': nat, i': nat) {
    h < h' || (h == h' && (t < t' || (t == t' && i < i')))
  }

  /** The keys of one scripthash sort by the word of their height, then by position in the block, then by number. */
  lemma {:induction false} HistoryOrder(sh: Bytes, h: int, t: nat, i: nat, h': int, t': nat, i': nat)
    requires |sh| == HASH_LENGTH && t < U32 && i < U32 && t' < U32 && i' < U32
    ensures Less(MakeHistoryKey(sh, h, t, i).value, MakeHistoryKey(sh, h', t', i').value) <==>
            Earlier(Unsigned(h), t, i, Unsigned(h'), t', i')
  {
    var a, b := MakeHistoryKey(sh, h, t, i).value, MakeHistoryKey(sh, h', t', i').value;
    var c, d := PutUint32(t) + (PutUint32(i) + []), PutUint32(t') + (PutUint32(i') + []);
    assert a == ([HISTORY] + sh) + (PutUint32(Unsigned(h)) + c);
    assert b == ([HISTORY] + sh) + (PutUint32(Unsigned(h')) + d);
    LessAfterPrefix([HISTORY] + sh, PutUint32(Unsigned(h)) + c, PutUint32(Unsigned(h')) + d);
    LessByWord(Unsigned(h), Unsigned(h'), c, d);
    LessByWord(t, t', PutUint32(i) + [], PutUint32(i') + []);
    LessByWord(i, i', [], []);
  }

  /** So they sort by height exactly when no negative height is set against a non-negative one. */
  lemma {:induction false} HeightOrder(sh: Bytes, h: int, t: nat, i: nat, h': int, t': nat, i': nat)
    requires |sh| == HASH_LENGTH && t < U32 && i < U32 && t' < U32 && i' < U32 && -I32 <= h < I32 && -I32 <= h' < I32
    ensures (Less(MakeHistoryKey(sh, h, t, i).value, MakeHistoryKey(sh, h', t', i').value) <==> Earlier(h, t, i, h', t', i')) <==>
            (h < 0 <==> h' < 0)
  {
    HistoryOrder(sh, h, t, i, h', t', i');
    SignedOfUnsigned(h);
    SignedOfUnsigned(h');
  }

  /** Byte order is a strict total order. */
  lemma {:induction false} LessTotal(a: Bytes, b: Bytes)
    ensures a == b <==> !Less(a, b) && !Less(b, a)
    ensures !(Less(a, b) && Less(b, a))
  {
    if a != [] && b != [] {
      assert a == [a[0]] + a[1..] && b == [b[0]] + b[1..];
      LessTotal(a[1..], b[1..]);
    }
  }

  lemma {:induction false} LessTrans(a: Bytes, b: Bytes, c: Bytes)
    requires Less(a, b) && Less(b, c)
    ensures Less(a, c)
  {
    if a != [] && a[0] == b[0] == c[0] {
      LessTrans(a[1..], b[1..], c[1..]);
    }
  }

  /** Fields of one length are compared before what follows them. */
  lemma {:induction false} LessByField(p: Bytes, q: Bytes, a: Bytes, b: Bytes)
    requires |p| == |q|
    ensures Less(p + a, q + b) <==> Less(p, q) || (p == q && Less(a, b))
  {
    if p == [] {
      assert p + a == a && q + b == b;
    } else {
      assert p == [p[0]] + p[1..] && q == [q[0]] + q[1..];
      assert p + a == [p[0]] + (p[1..] + a) && q + b == [q[0]] + (q[1..] + b);
      LessByFirst(p[0], q[0], p[1..] + a, q[1..] + b);
      LessByField(p[1..], q[1..], a, b);
    }
  }

  // ----- UTXO keys

  const UTXO: byte := 0x75

  /** u + scripthash + txid + vout; hashes of the wrong length are refused. */
  function MakeUTXOKey(scripthash: Bytes, txid: Bytes, vout: nat): Option<Bytes>
    requires vout < U32
  {
    if |scripthash| != HASH_LENGTH || |txid| != HASH_LENGTH then None
    else Some([UTXO] + scripthash + txid + PutUint32(vout))
  }

  /** One scripthash's UTXO keys sort by the bytes of the txid, then by position. */
  lemma {:induction false} UTXOOrder(sh: Bytes, t: Bytes, n: nat, t': Bytes, n': nat)
    requires |sh| == HASH_LENGTH && |t| == HASH_LENGTH && |t'| == HASH_LENGTH && n < U32 && n' < U32
    ensures Less(MakeUTXOKey(sh, t, n).value, MakeUTXOKey(sh, t', n').value) <==> Less(t, t') || (t == t' && n < n')
  {
    var a, b := PutUint32(n) + [], PutUint32(n') + [];
    assert MakeUTXOKey(sh, t, n).value == ([UTXO] + sh) + (t + a);
    assert MakeUTXOKey(sh, t', n').value == ([UTXO] + sh) + (t' + b);
    LessAfterPrefix([UTXO] + sh, t + a, t' + b);
    LessByField(t, t', a, b);
    LessByWord(n, n', [], []);
  }

  datatype UTXOFields = UTXOFields(scripthash: Bytes, txid: Bytes, vout: nat)

  function ParseUTXOKey(key: Bytes): Option<UTXOFields> {
    if |key| != 69 || key[0] != UTXO then None
    else Some(UTXOFields(key[1..33], key[33..65], Uint32(key[65..69])))
  }

  /** The bytes of a UTXO key, and parsing inverts making. */
  lemma {:induction false} UTXORoundTrip(scripthash: Bytes, txid: Bytes, vout: nat)
    requires |scripthash| == 32 && |txid| == 32 && vout < U32
    ensures var key := MakeUTXOKey(scripthash, txid, vout);
            && key.Some? && |key.value| == 69 && key.value[0] == 0x75
            && key.value[1..33] == scripthash && key.value[33..65] == txid
            && ParseUTXOKey(key.value) == Some(UTXOFields(scripthash, txid, vout))
  {
    var key := MakeUTXOKey(scripthash, txid, vout).value;
    assert key[1..33] == scripthash;
    assert key[33..65] == txid;
    assert key[65..69] == PutUint32(vout);
    Uint32OfPut(vout);
  }

  /** A key that parses is the one made from its fields. */
  lemma {:induction false} UTXOParseExact(key: Bytes)
    ensures ParseUTXOKey(key).Some? ==>
              var f := ParseUTXOKey(key).value;
              f.vout < U32 && MakeUTXOKey(f.scripthash, f.txid, f.vout) == Some(key)
  {
    if ParseUTXOKey(key).Some? {
      PutOfUint32(key[65..69]);
      assert key == [UTXO] + key[1..33] + key[33..65] + key[65..69];
    }
  }

  // ----- one scripthash's rows

  function MakeUTXOPrefix(scripthash: Bytes): Option<Bytes> {
    if |scripthash| != HASH_LENGTH then None else Some([UTXO] + scripthash)
  }

  function MakeHistoryPrefix(scripthash: Bytes): Option<Bytes> {
    if |scripthash| != HASH_LENGTH then None else Some([HISTORY] + scripthash)
  }

  /** A key that is a byte, 32 more and then anything starts with a prefix of that form exactly when both parts agree. */
  lemma {:induction false} StartsWithTag(tag: byte, sh: Bytes, tag': byte, sh': Bytes, rest: Bytes, key: Bytes)
    requires |sh| == 32 && |sh'| == 32 && key == [tag'] + sh' + rest
    ensures Starts([tag] + sh, key) <==> tag == tag' && sh == sh'
  {
    assert key[..33] == [tag'] + sh';
    if [tag] + sh == [tag'] + sh' {
      assert tag == ([tag] + sh)[0] && tag' == ([tag'] + sh')[0];
      assert sh == ([tag] + sh)[1..] == ([tag'] + sh')[1..] == sh';
    }
  }

  /** An iterator over one scripthash's UTXO range sees its UTXO keys, and no other scripthash's and no history key. */
  lemma {:induction false} UTXORange(sh: Bytes, sh': Bytes, txid: Bytes, vout: nat, height: int, txIndex: nat, index: nat)
    requires |sh| == 32 && |sh'| == 32 && |txid| == 32 && vout < U32 && txIndex < U32 && index < U32
    ensures MakeUTXOPrefix(sh).Some? && MakeUTXOKey(sh', txid, vout).Some? && MakeHistoryKey(sh', height, txIndex, index).Some?
    ensures InRange(MakeUTXOPrefix(sh).value, MakeUTXOKey(sh', txid, vout).value) <==> sh' == sh
    ensures !InRange(MakeUTXOPrefix(sh).value, MakeHistoryKey(sh', height, txIndex, index).value)
  {
    var prefix, key := MakeUTXOPrefix(sh).value, MakeUTXOKey(sh', txid, vout).value;
    var other := MakeHistoryKey(sh', height, txIndex, index).value;
    assert key == [UTXO] + sh' + (txid + PutUint32(vout));
    assert other == [HISTORY] + sh' + (PutUint32(Unsigned(height)) + PutUint32(txIndex) + PutUint32(index));
    StartsWithTag(UTXO, sh, UTXO, sh', txid + PutUint32(vout), key);
    StartsWithTag(UTXO, sh, HISTORY, sh', PutUint32(Unsigned(height)) + PutUint32(txIndex) + PutUint32(index), other);
    RangeIsPrefix(prefix, key);
    RangeIsPrefix(prefix, other);
  }

  /** Likewise over its history range. */
  lemma {:induction false} HistoryRange(sh: Bytes, sh': Bytes, txid: Bytes, vout: nat, height: int, txIndex: nat, index: nat)
    requires |sh| == 32 && |sh'| == 32 && |txid| == 32 && vout < U32 && txIndex < U32 && index < U32
    ensures MakeHistoryPrefix(sh).Some? && MakeUTXOKey(sh', txid, vout).Some? && MakeHistoryKey(sh', height, txIndex, index).Some?
    ensures InRange(MakeHistoryPrefix(sh).value, MakeHistoryKey(sh', height, txIndex, index).value) <==> sh' == sh
    ensures !InRange(MakeHistoryPrefix(sh).value, MakeUTXOKey(sh', txid, vout).value)
  {
    var prefix, key := MakeHistoryPrefix(sh).value, MakeHistoryKey(sh', height, txIndex, index).value;
    var other := MakeUTXOKey(sh', txid, vout).value;
    assert key == [HISTORY] + sh' + (PutUint32(Unsigned(height)) + PutUint32(txIndex) + PutUint32(index));
    assert other == [UTXO] + sh' + (txid + PutUint32(vout));
    StartsWithTag(HISTORY, sh, HISTORY, sh', PutUint32(Unsigned(height)) + PutUint32(txIndex) + PutUint32(index), key);
    StartsWithTag(HISTORY, sh, UTXO, sh', txid + PutUint32(vout), other);
    RangeIsPrefix(prefix, key);
    RangeIsPrefix(prefix, other);
  }

  // ----- prefix ranges

  /** The least key above every key with this prefix: the last byte that is not 0xff goes up, the rest wrap to zero. */
  function Bound(prefix: Bytes): Option<Bytes> {
    if prefix == [] then None else
    var rest := Bound(prefix[1..]);
    if rest.Some? then Some([prefix[0]] + rest.value)
    else if prefix[0] == 0xff then None
    else Some([prefix[0] + 1] + Zeros(|prefix| - 1))
  }

  ghost predicate AllMax(s: Bytes) {
    forall i :: 0 <= i < |s| ==> s[i] == 0xff
  }

  lemma {:induction false} BoundNone(p: Bytes)
    ensures Bound(p) == None <==> AllMax(p)
  {
    if p != [] {
      BoundNone(p[1..]);
      assert AllMax(p) <==> p[0] == 0xff && AllMax(p[1..]) by {
        assert p == [p[0]] + p[1..];
      }
    }
  }

  lemma {:induction false} BoundAt(p: Bytes, i: nat)
    requires i < |p| && p[i] != 0xff && AllMax(p[i + 1..])
    ensures Bound(p) == Some(p[..i] + [p[i] + 1] + Zeros(|p| - i - 1))
  {
    if i == 0 {
      BoundNone(p[1..]);
      assert p[..0] + [p[0] + 1] == [p[0] + 1];
    } else {
      assert p[1..][i - 1 + 1..] == p[i + 1..];
      BoundAt(p[1..], i - 1);
      assert [p[0]] + p[1..][..i - 1] == p[..i];
      assert [p[0]] + (p[1..][..i - 1] + [p[i] + 1] + Zeros(|p| - i - 1)) == p[..i] + [p[i] + 1] + Zeros(|p| - i - 1);
    }
  }

  lemma {:induction false} ZerosAt(n: nat)
    ensures |Zeros(n)| == n && forall i :: 0 <= i < n ==> Zeros(n)[i] == 0
  {
    if n > 0 {
      ZerosAt(n - 1);
    }
  }

  lemma {:induction false} CarryStops(prefix: Bytes, i: nat, end: Bytes)
    requires i < |prefix| == |end| && prefix[i] != 0xff && AllMax(prefix[i + 1..])
    requires end[..i] == prefix[..i] && end[i] == prefix[i] + 1 && forall j :: i < j < |end| ==> end[j] == 0
    ensures Bound(prefix) == Some(end)
  {
    BoundAt(prefix, i);
    ZerosAt(|prefix| - i - 1);
    assert end == prefix[..i] + [prefix[i] + 1] + Zeros(|prefix| - i - 1);
  }

  /** The carry loop, on a copy of the prefix. */
  method PrefixUpperBound(prefix: Bytes) returns (r: Option<Bytes>)
    ensures r == Bound(prefix)
  {
    var end := new byte[|prefix|](i requires 0 <= i < |prefix| => prefix[i]);
    var i := end.Length;
    while i > 0
      invariant 0 <= i <= end.Length
      invariant end[..i] == prefix[..i] && AllMax(prefix[i..])
      invariant forall j :: i <= j < end.Length ==> end[j] == 0
    {
      i := i - 1;
      assert prefix[i..] == [prefix[i]] + prefix[i + 1..];
      if end[i] == 0xff {
        end[i] := 0;
      } else {
        end[i] := end[i] + 1;
        CarryStops(prefix, i, end[..]);
        return Some(end[..]);
      }
    }
    assert prefix[0..] == prefix;
    BoundNone(prefix);
    r := None;
  }

  ghost predicate InRange(prefix: Bytes, key: Bytes) {
    !Less(key, prefix) && (Bound(prefix) == None || Less(key, Bound(prefix).value))
  }

  lemma {:induction false} NotBelowZeros(k: Bytes, n: nat)
    ensures Less(k, Zeros(n)) <==> |k| < n && k == Zeros(|k|)
  {
    if n > 0 && k != [] {
      assert Zeros(n)[1..] == Zeros(n - 1);
      assert Zeros(|k|)[1..] == Zeros(|k| - 1);
      assert k == [k[0]] + k[1..];
      NotBelowZeros(k[1..], n - 1);
    }
  }

  lemma {:induction false} StartsStep(p: Bytes, k: Bytes)
    requires p != [] && k != []
    ensures Starts(p, k) <==> p[0] == k[0] && Starts(p[1..], k[1..])
  {
    if Starts(p, k) {
      assert k[1..][..|p| - 1] == k[..|p|][1..] == p[1..];
      assert p[0] == k[..|p|][0];
    }
    if p[0] == k[0] && Starts(p[1..], k[1..]) {
      assert k[..|p|] == [k[0]] + k[1..][..|p| - 1] == p;
    }
  }

  /** Among keys at least as long as the prefix, the range holds exactly those that start with it. */
  lemma {:induction false} RangeIsPrefix(p: Bytes, k: Bytes)
    requires |k| >= |p|
    ensures InRange(p, k) <==> Starts(p, k)
  {
    if p != [] {
      RangeIsPrefix(p[1..], k[1..]);
      StartsStep(p, k);
      NotBelowZeros(k[1..], |p| - 1);
      var rest := Bound(p[1..]);
      if rest.Some? {
        LessByFirst(k[0], p[0], k[1..], rest.value);
        assert k == [k[0]] + k[1..];
      } else if p[0] != 0xff {
        LessByFirst(k[0], p[0] + 1, k[1..], Zeros(|p| - 1));
        assert k == [k[0]] + k[1..];
      }
    }
  }

  /** A shorter key can slip in, and does exactly when the prefix ends in 0xff without being all 0xff. */
  lemma {:induction false} RangeExactWhen(p: Bytes)
    ensures (forall k :: InRange(p, k) <==> Starts(p, k)) <==> p == [] || p[|p| - 1] != 0xff || AllMax(p)
  {
    if p == [] || p[|p| - 1] != 0xff || AllMax(p) {
      forall k ensures InRange(p, k) <==> Starts(p, k) {
        if |k| >= |p| {
          RangeIsPrefix(p, k);
        } else {
          ShortOutside(p, k);
        }
      }
    } else {
      var k := SlipsIn(p);
      assert !Starts(p, k);
    }
  }

  lemma {:induction false} ShortOutside(p: Bytes, k: Bytes)
    requires |k| < |p| && (p[|p| - 1] != 0xff || AllMax(p))
    ensures !InRange(p, k)
  {
    if k != [] {
      ShortOutside(p[1..], k[1..]);
      NotBelowZeros(k[1..], |p| - 1);
      BoundNone(p[1..]);
      var rest := Bound(p[1..]);
      assert k == [k[0]] + k[1..];
      if rest.Some? {
        LessByFirst(k[0], p[0], k[1..], rest.value);
      } else {
        assert p[1..][|p| - 2] == p[|p| - 1];
      }
    }
  }

  lemma {:induction false} SlipsIn(p: Bytes) returns (k: Bytes)
    requires p != [] && p[|p| - 1] == 0xff && !AllMax(p)
    ensures |k| < |p| && InRange(p, k)
  {
    assert p == [p[0]] + p[1..];
    if AllMax(p[1..]) {
      k := [p[0] + 1];
      BoundNone(p[1..]);
      NotBelowZeros([], |p| - 1);
      LessByFirst(p[0] + 1, p[0] + 1, [], Zeros(|p| - 1));
      assert k == [p[0] + 1] + [];
    } else {
      var rest := SlipsIn(p[1..]);
      k := [p[0]] + rest;
      BoundNone(p[1..]);
      LessByFirst(p[0], p[0], rest, Bound(p[1..]).value);
      LessByFirst(p[0], p[0], rest, p[1..]);
    }
  }
}
