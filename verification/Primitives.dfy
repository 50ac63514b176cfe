/** The values that travel between the node's components. Hashes are abstract identifiers. */
module Primitives {

  datatype Option<+T> = None | Some(value: T)

  type Hash = int

  const COIN := 100_000_000
  const CENT := 1_000_000
  const MAX_SINGLE_TX := 50_000_000_000 * COIN
  const MAX_UINT32 := 0xFFFF_FFFF
  const MAX_INT64 := 0x7FFF_FFFF_FFFF_FFFF

  predicate MoneyRange(value: int) {
    0 <= value <= MAX_SINGLE_TX
  }

  /** CDiskTxPos: the null position marks an unspent output. */
  datatype DiskTxPos = Null | Pos(file: nat, blockPos: nat, txPos: nat)

  /** CTxIndex: where a transaction lies on disk, and who spent each of its outputs. */
  datatype TxIndex = TxIndex(pos: DiskTxPos, spent: seq<DiskTxPos>)

  datatype OutPoint = OutPoint(hash: Hash, n: nat) {
    predicate IsNull() {
      hash == 0 && n == MAX_UINT32
    }
  }

  datatype TxOut = TxOut(value: int, script: string) {
    predicate IsEmpty() {
      value == 0 && script == ""
    }
  }

  /** CTransaction; its hash, serialized size and legacy signature-operation count are carried as fields. */
  datatype Tx = Tx(hash: Hash, time: nat, vin: seq<OutPoint>, vout: seq<TxOut>, size: nat, sigOps: nat) {
    predicate IsCoinBase() {
      |vin| == 1 && vin[0].IsNull() && |vout| >= 1
    }

    predicate IsCoinStake() {
      |vin| > 0 && !vin[0].IsNull() && |vout| >= 2 && vout[0].IsEmpty()
    }
  }

  datatype Block = Block(hash: Hash, prev: Hash, time: nat, vtx: seq<Tx>) {
    predicate IsProofOfStake() {
      |vtx| > 1 && vtx[1].IsCoinStake()
    }
  }

  /** The fields of CBlockIndex that never change: a block's place in the block tree and on disk. */
  datatype BlockIndex = BlockIndex(prev: Option<Hash>, height: nat, file: nat, blockPos: nat, trust: int)

  /** The fields of CBlockIndex that connecting and disconnecting change. */
  datatype BlockState = BlockState(next: Option<Hash>, mint: int, supply: int)

  /** CDiskBlockIndex. */
  datatype BlockRecord = BlockRecord(index: BlockIndex, state: BlockState)

  /** GetValueOut without its range exceptions. */
  function SumOut(outs: seq<TxOut>): int {
    if outs == [] then 0 else SumOut(outs[..|outs| - 1]) + outs[|outs| - 1].value
  }

  function Min(a: int, b: int): int {
    if a <= b then a else b
  }

  function Pow2(n: nat): (r: nat)
    ensures r >= 1
  {
    if n == 0 then 1 else 2 * Pow2(n - 1)
  }

  lemma QuotientFalls(n: nat, b: nat, a: nat)
    requires 0 < b <= a
    ensures n / a <= n / b
  {
    var d := n / b;
    MulMono(b, a, d + 1);
    if d + 1 <= n / a {
      MulMono(d + 1, n / a, a);
    }
  }

  lemma MulSplit(k: int, x: int, y: int)
    ensures k * (x + y) == k * x + k * y
  {
  }

  lemma MulMono(x: nat, y: nat, k: nat)
    requires x <= y
    ensures x * k <= y * k && k * x <= k * y
  {
  }

  lemma {:induction false} SubsetSize(a: set<int>, b: set<int>)
    requires a <= b
    ensures |a| <= |b|
  {
    assert b == a + (b - a);
  }
}
