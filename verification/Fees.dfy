/** GetMinFee. */
module Fees {
  import opened Primitives

  const MAX_BLOCK_SIZE := 15_000_000
  const MAX_BLOCK_SIZE_GEN := MAX_BLOCK_SIZE / 2
  const MAX_STANDARD_TX_SIZE := MAX_BLOCK_SIZE_GEN / 5
  const MIN_TX_FEE := 10_000
  const MIN_RELAY_TX_FEE := MIN_TX_FEE

  datatype FeeMode = Block | Relay | Send

  /** The price of room rises as the block fills. */
  function Scarcity(newSize: nat): nat
    requires newSize < MAX_BLOCK_SIZE_GEN
  {
    if newSize >= MAX_BLOCK_SIZE_GEN / 2 then MAX_BLOCK_SIZE_GEN / (MAX_BLOCK_SIZE_GEN - newSize) else 1
  }

  function Clamp(fee: nat): nat {
    if MoneyRange(fee) then fee else MAX_SINGLE_TX
  }

  /** Block and transaction sizes are 32-bit unsigned, and their sum wraps. */
  function MinFee(blockSize: nat, mode: FeeMode, bytes: nat): nat {
    var base := if mode == Relay then MIN_RELAY_TX_FEE else MIN_TX_FEE;
    var newSize := (blockSize + bytes) % 0x1_0000_0000;
    var fee := (1 + bytes / 1000) * base;
    if blockSize == 1 then Clamp(fee)
    else if newSize >= MAX_BLOCK_SIZE_GEN then MAX_SINGLE_TX
    else Clamp(fee * Scarcity(newSize))
  }

  /** A fuller block makes room dearer, never free. */
  lemma ScarcityGrows(a: nat, b: nat)
    requires a <= b < MAX_BLOCK_SIZE_GEN
    ensures 1 <= Scarcity(a) <= Scarcity(b)
  {
    if b >= MAX_BLOCK_SIZE_GEN / 2 {
      QuotientFalls(MAX_BLOCK_SIZE_GEN, MAX_BLOCK_SIZE_GEN - b, MAX_BLOCK_SIZE_GEN - a);
      QuotientFalls(MAX_BLOCK_SIZE_GEN, MAX_BLOCK_SIZE_GEN - a, MAX_BLOCK_SIZE_GEN);
    }
  }

  /** The fee is k-fold or more exactly when the block is half full and at most a k-th of it is left. */
  lemma ScarcityMeans(newSize: nat, k: nat)
    requires newSize < 7_500_000 && k >= 2
    ensures Scarcity(newSize) >= k <==> newSize >= 3_750_000 && k * (7_500_000 - newSize) <= 7_500_000
  {
    var left := 7_500_000 - newSize;
    var q := 7_500_000 / left;
    assert left * q <= 7_500_000 < left * q + left;
    if k <= q {
      MulMono(k, q, left);
    } else {
      MulMono(q + 1, k, left);
    }
  }

  /** Up to half a block the fee is 10000 for every thousand bytes begun. */
  lemma PlainFee(blockSize: nat, mode: FeeMode, bytes: nat)
    requires blockSize + bytes < 3_750_000
    ensures MinFee(blockSize, mode, bytes) == 10_000 * (1 + bytes / 1000)
  {
  }

  /** The fee is a valid amount, at least the base fee, and a full block is closed to everyone. */
  lemma MinFeeBounds(blockSize: nat, mode: FeeMode, bytes: nat)
    ensures MIN_TX_FEE <= MinFee(blockSize, mode, bytes) <= MAX_SINGLE_TX
    ensures blockSize != 1 && MAX_BLOCK_SIZE_GEN <= blockSize + bytes < 0x1_0000_0000 ==> MinFee(blockSize, mode, bytes) == MAX_SINGLE_TX
  {
    hide Scarcity;
    var newSize := (blockSize + bytes) % 0x1_0000_0000;
    if newSize < MAX_BLOCK_SIZE_GEN {
      ScarcityGrows(newSize, newSize);
      MulMono(1, Scarcity(newSize), (1 + bytes / 1000) * MIN_TX_FEE);
    }
  }

  /** A fuller block never asks for less. */
  lemma FullerCostsMore(a: nat, b: nat, mode: FeeMode, bytes: nat)
    requires 1 < a <= b && b + bytes < 0x1_0000_0000
    ensures MinFee(a, mode, bytes) <= MinFee(b, mode, bytes)
  {
    hide Scarcity, MinFee;
    var base := (1 + bytes / 1000) * MIN_TX_FEE;
    SizedFee(a, mode, bytes);
    SizedFee(b, mode, bytes);
    if b + bytes >= MAX_BLOCK_SIZE_GEN {
      MinFeeBounds(a, mode, bytes);
    } else {
      ScarcityGrows(a + bytes, b + bytes);
      MulMono(Scarcity(a + bytes), Scarcity(b + bytes), base);
    }
  }

  lemma SizedFee(blockSize: nat, mode: FeeMode, bytes: nat)
    requires blockSize > 1 && blockSize + bytes < 0x1_0000_0000
    ensures MinFee(blockSize, mode, bytes) ==
            if blockSize + bytes >= MAX_BLOCK_SIZE_GEN then MAX_SINGLE_TX
            else Clamp(((1 + bytes / 1000) * MIN_TX_FEE) * Scarcity(blockSize + bytes))
  {
  }
}
