/** The values electrum-go moves between Bitcoin Core, its store and its clients. */
module Types {

  newtype byte = b: int | 0 <= b < 256

  type Bytes = seq<byte>

  /** A txid, block hash or scripthash: 32 raw bytes in internal order. */
  datatype Hash = Hash(bytes: Bytes)

  const HASH_LENGTH := 32

  const U32 := 0x1_0000_0000

  /** A word read as two's complement, where `modulus` is one more than the greatest word. */
  function Signed(w: nat, modulus: nat): int {
    if 2 * w < modulus then w else w - modulus
  }

  function Zeros(n: nat): Bytes {
    if n == 0 then [] else [0] + Zeros(n - 1)
  }

  /** The all-zero hash that stands for "no previous output". */
  const ZERO_HASH := Hash(Zeros(HASH_LENGTH))

  datatype Option<+T> = None | Some(value: T)

  datatype OutPoint = OutPoint(txid: Hash, vout: nat)

  datatype TxIn = TxIn(prev: OutPoint)

  /** An output with its script; `scripthash` is the reversed SHA-256 of the script. */
  datatype TxOut = TxOut(value: int, script: Bytes, scripthash: Hash)

  /** A transaction with its hash and its serialised form. */
  datatype Tx = Tx(txid: Hash, ins: seq<TxIn>, outs: seq<TxOut>, raw: Bytes)

  /** A block header: its hash, the hash it links to and its serialised form. */
  datatype Header = Header(hash: Hash, prev: Hash, raw: Bytes)

  datatype Block = Block(header: Header, txs: seq<Tx>)

  predicate IsCoinbaseInput(txIn: TxIn) {
    txIn.prev.txid == ZERO_HASH
  }

  predicate IsOpReturn(script: Bytes) {
    |script| > 0 && script[0] == 0x6a
  }

  /** Outputs that are neither OP_RETURN nor worth zero are indexed. */
  predicate Indexable(out: TxOut) {
    !IsOpReturn(out.script) && out.value != 0
  }

  /** One of these inputs really spends `o`. */
  ghost predicate HasInput(ins: seq<TxIn>, o: OutPoint) {
    o.txid != ZERO_HASH && TxIn(o) in ins
  }

  lemma {:induction false} Regroup<T>(a: seq<T>, b: seq<T>, c: seq<T>)
    ensures a + b + c == a + (b + c)
  {
  }
}
