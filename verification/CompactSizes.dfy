/** The variable-length size in front of every list on disk, which decides where a block's transactions lie. */
module CompactSizes {
  import opened Primitives
  import opened Ledger

  type Bytes = seq<nat>

  const MAX_SIZE := 0x0200_0000

  predicate AreBytes(b: Bytes) {
    forall i :: 0 <= i < |b| ==> b[i] < 256
  }

  function Pow256(k: nat): (p: nat)
    ensures p >= 1
  {
    if k == 0 then 1 else 256 * Pow256(k - 1)
  }

  /** The low k bytes of a number, lowest first. */
  function LowBytes(n: nat, k: nat): (b: Bytes)
    ensures |b| == k && AreBytes(b)
  {
    if k == 0 then [] else [n % 256] + LowBytes(n / 256, k - 1)
  }

  function Value(b: Bytes): nat {
    if b == [] then 0 else b[0] + 256 * Value(b[1..])
  }

  lemma {:induction false} ValueOfLow(n: nat, k: nat)
    requires n < Pow256(k)
    ensures Value(LowBytes(n, k)) == n
  {
    if k > 0 {
      ValueOfLow(n / 256, k - 1);
      assert LowBytes(n, k)[1..] == LowBytes(n / 256, k - 1);
    }
  }

  lemma {:induction false} LowOfValue(b: Bytes)
    requires AreBytes(b)
    ensures Value(b) < Pow256(|b|) && LowBytes(Value(b), |b|) == b
  {
    if b != [] {
      assert AreBytes(b[1..]) by {
        assert forall i :: 0 <= i < |b[1..]| ==> b[1..][i] == b[i + 1];
      }
      LowOfValue(b[1..]);
      assert Value(b) % 256 == b[0] && Value(b) / 256 == Value(b[1..]);
      assert b == [b[0]] + b[1..];
    }
  }

  /** WriteCompactSize. */
  function Write(n: nat): Bytes {
    if n < 253 then [n]
    else if n <= 0xFFFF then [253] + LowBytes(n, 2)
    else if n <= 0xFFFF_FFFF then [254] + LowBytes(n, 4)
    else [255] + LowBytes(n, 8)
  }

  /** A number of k bytes after the marker, if it needs that many. */
  function Long(b: Bytes, k: nat, least: nat): Option<(nat, nat)> {
    if |b| < k + 1 || Value(b[1..k + 1]) < least then None else Some((Value(b[1..k + 1]), k + 1))
  }

  /** ReadCompactSize: the size and how many bytes it took; None if the bytes end early, the encoding is not the shortest or
      the size is too large. */
  function Read(b: Bytes): Option<(nat, nat)> {
    if b == [] then None
    else
      var r := if b[0] < 253 then Some((b[0], 1))
               else if b[0] == 253 then Long(b, 2, 253)
               else if b[0] == 254 then Long(b, 4, 0x1_0000)
               else Long(b, 8, 0x1_0000_0000);
      if r.Some? && r.value.0 <= MAX_SIZE then r else None
  }

  /** The size of a size is the length of what is written. */
  lemma SizeOfSize(n: nat)
    ensures |Write(n)| == CompactSize(n)
  {
  }

  lemma Powers()
    ensures Pow256(2) == 0x1_0000 && Pow256(4) == 0x1_0000_0000 && Pow256(8) == 0x1_0000_0000_0000_0000
  {
    assert Pow256(4) == 256 * (256 * Pow256(2));
    assert Pow256(6) == 256 * (256 * Pow256(4));
    assert Pow256(8) == 256 * (256 * Pow256(6));
  }

  lemma LongBack(n: nat, marker: nat, k: nat, least: nat, rest: Bytes)
    requires least <= n < Pow256(k)
    ensures Long([marker] + LowBytes(n, k) + rest, k, least) == Some((n, k + 1))
  {
    ValueOfLow(n, k);
    assert ([marker] + LowBytes(n, k) + rest)[1..k + 1] == LowBytes(n, k);
  }

  /** Every size that may be read comes back, with exactly its own bytes consumed. */
  lemma WriteThenRead(n: nat, rest: Bytes)
    requires n <= MAX_SIZE
    ensures Read(Write(n) + rest) == Some((n, CompactSize(n)))
  {
    hide LowBytes, Value, Long, Pow256;
    Powers();
    if 253 <= n <= 0xFFFF {
      LongBack(n, 253, 2, 253, rest);
    } else if 0xFFFF < n {
      LongBack(n, 254, 4, 0x1_0000, rest);
    }
  }

  lemma LongIsWritten(b: Bytes, k: nat, least: nat)
    requires AreBytes(b) && Long(b, k, least).Some?
    ensures var (n, used) := Long(b, k, least).value;
            used == k + 1 <= |b| && least <= n < Pow256(k) && b[..used] == [b[0]] + LowBytes(n, k)
  {
    var low := b[1..k + 1];
    assert AreBytes(low) by {
      assert forall i :: 0 <= i < |low| ==> low[i] == b[i + 1];
    }
    LowOfValue(low);
    assert b[..k + 1] == [b[0]] + low;
  }

  /** Every encoding that is read is the one that is written: there is no other. */
  lemma ReadThenWrite(b: Bytes)
    requires AreBytes(b) && Read(b).Some?
    ensures var (n, used) := Read(b).value; used <= |b| && b[..used] == Write(n) && used == CompactSize(n)
  {
    hide LowBytes, Value, Long, Pow256;
    Powers();
    if b[0] == 253 {
      LongIsWritten(b, 2, 253);
    } else if b[0] == 254 {
      LongIsWritten(b, 4, 0x1_0000);
    } else if b[0] == 255 {
      LongIsWritten(b, 8, 0x1_0000_0000);
    } else {
      assert b[..1] == [b[0]];
    }
  }

  /** The transactions of a block lie one after the other behind the header of 80 bytes and their number. */
  lemma {:induction false} PlacesInLine(pindex: BlockIndex, vtx: seq<Tx>, i: nat, j: nat)
    requires i <= j < |vtx|
    ensures Places(pindex, vtx)[i].Pos? && Places(pindex, vtx)[j].Pos?
    ensures Places(pindex, vtx)[0] == Pos(pindex.file, pindex.blockPos, pindex.blockPos + 80 + |Write(|vtx|)|)
    ensures i < j ==> Places(pindex, vtx)[i].txPos + vtx[i].size <= Places(pindex, vtx)[j].txPos
    ensures j == i + 1 ==> Places(pindex, vtx)[i].txPos + vtx[i].size == Places(pindex, vtx)[j].txPos
    decreases j - i
  {
    SizeOfSize(|vtx|);
    if i < j {
      PlacesInLine(pindex, vtx, i, j - 1);
    }
  }
}
