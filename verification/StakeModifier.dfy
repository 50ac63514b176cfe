/** The stake modifier: 64 blocks of the recent past, each giving one bit. */
module StakeModifier {
  import opened Primitives

  const MODIFIER_INTERVAL := 600
  const MODIFIER_INTERVAL_RATIO := 3

  /** The fields of CBlockIndex the kernel reads. `entropy` is the block's stake entropy bit. */
  datatype KernelBlock = KernelBlock(hash: Hash, time: nat, proof: Hash, isStake: bool, entropy: bool,
                                     generated: bool, modifier: nat)

  type BlockMap = map<Hash, KernelBlock>

  datatype Candidate = Candidate(time: int, hash: Hash)

  // ----- time sections

  function IntervalSection(section: nat): int
    requires section < 64
  {
    MODIFIER_INTERVAL * 63 / (63 + (63 - section) * (MODIFIER_INTERVAL_RATIO - 1))
  }

  /** The sections are positive and never get shorter, from a third of the interval up to the whole. */
  lemma SectionsGrow(section: nat, later: nat)
    requires section <= later < 64
    ensures MODIFIER_INTERVAL / MODIFIER_INTERVAL_RATIO <= IntervalSection(section) <= IntervalSection(later) <= MODIFIER_INTERVAL
  {
    var a, b := 63 + (63 - section) * 2, 63 + (63 - later) * 2;
    assert 63 <= b <= a <= 189;
    QuotientFalls(MODIFIER_INTERVAL * 63, b, a);
    QuotientFalls(MODIFIER_INTERVAL * 63, 63, b);
    QuotientFalls(MODIFIER_INTERVAL * 63, a, 189);
  }

  /** The first section is 200 seconds long, the last 600. */
  lemma SectionEnds()
    ensures IntervalSection(0) == 200 && IntervalSection(63) == 600
  {
  }

  function Sections(n: nat): int
    requires n <= 64
  {
    if n == 0 then 0 else Sections(n - 1) + IntervalSection(n - 1)
  }

  lemma {:induction false} SectionsTogether(n: nat)
    requires n <= 64
    ensures 200 * n <= Sections(n) <= 600 * n
  {
    if n > 0 {
      SectionsTogether(n - 1);
      SectionsGrow(n - 1, n - 1);
    }
  }

  lemma NextSection(n: nat)
    requires n < 64
    ensures Sections(n + 1) == Sections(n) + IntervalSection(n)
  {
  }

  method SelectionInterval() returns (sum: int)
    ensures sum == Sections(64)
  {
    sum := 0;
    for section := 0 to 64
      invariant sum == Sections(section)
    {
      sum := sum + IntervalSection(section);
    }
  }

  // ----- one selection

  /** The hash by which candidates compete; `sel` hashes a proof with the previous modifier. */
  function SelectionHash(sel: (Hash, nat) -> nat, b: KernelBlock, modifier: nat): nat {
    if b.isStake then sel(b.proof, modifier) / 0x1_0000_0000 else sel(b.proof, modifier)
  }

  /** A stake candidate beats a work candidate unless the other hash is smaller more than 2^32 times. */
  lemma StakeBeatsWork(sel: (Hash, nat) -> nat, stake: KernelBlock, work: KernelBlock, modifier: nat)
    requires stake.isStake && !work.isStake
    ensures SelectionHash(sel, stake, modifier) < SelectionHash(sel, work, modifier) <==>
            sel(stake.proof, modifier) < 0x1_0000_0000 * sel(work.proof, modifier)
  {
    var n, w := sel(stake.proof, modifier), sel(work.proof, modifier);
    var q := n / 0x1_0000_0000;
    assert 0x1_0000_0000 * q <= n < 0x1_0000_0000 * q + 0x1_0000_0000;
  }

  /** Work candidates compete by their own hashes, stake candidates by theirs. */
  lemma AlikeCompete(sel: (Hash, nat) -> nat, a: KernelBlock, b: KernelBlock, modifier: nat)
    requires a.isStake == b.isStake && SelectionHash(sel, a, modifier) < SelectionHash(sel, b, modifier)
    ensures sel(a.proof, modifier) < sel(b.proof, modifier)
  {
    var n, m := sel(a.proof, modifier), sel(b.proof, modifier);
    assert 0x1_0000_0000 * (m / 0x1_0000_0000) <= m && n < 0x1_0000_0000 * (n / 0x1_0000_0000) + 0x1_0000_0000;
  }

  predicate Known(cs: seq<Candidate>, blocks: BlockMap) {
    forall i :: 0 <= i < |cs| ==> cs[i].hash in blocks && blocks[cs[i].hash].hash == cs[i].hash && blocks[cs[i].hash].time == cs[i].time
  }

  predicate DistinctHashes(cs: seq<Candidate>) {
    forall i, j :: 0 <= i < j < |cs| ==> cs[i].hash != cs[j].hash
  }

  predicate InTimeOrder(cs: seq<Candidate>) {
    forall i, j :: 0 <= i < j < |cs| ==> cs[i].time <= cs[j].time
  }

  predicate SomeLeft(cs: seq<Candidate>, picked: set<Hash>) {
    exists i :: 0 <= i < |cs| && cs[i].hash !in picked
  }

  predicate IsFirstUnpicked(cs: seq<Candidate>, picked: set<Hash>, i: nat) {
    i < |cs| && cs[i].hash !in picked && forall j :: 0 <= j < i ==> cs[j].hash in picked
  }

  /** i is the earliest of the unpicked candidates in time whose selection hash is least. */
  predicate IsLeastInTime(sel: (Hash, nat) -> nat, cs: seq<Candidate>, blocks: BlockMap, picked: set<Hash>,
                          stop: int, modifier: nat, i: nat)
    requires Known(cs, blocks)
  {
    && i < |cs| && cs[i].hash !in picked && cs[i].time <= stop
    && forall j :: 0 <= j < |cs| && cs[j].hash !in picked && cs[j].time <= stop ==>
         var hi, hj := SelectionHash(sel, blocks[cs[i].hash], modifier), SelectionHash(sel, blocks[cs[j].hash], modifier);
         hi < hj || (hi == hj && i <= j)
  }

  /** What one round picks. */
  predicate IsPick(sel: (Hash, nat) -> nat, cs: seq<Candidate>, blocks: BlockMap, picked: set<Hash>,
                   stop: int, modifier: nat, i: nat)
    requires Known(cs, blocks)
  {
    if exists j :: 0 <= j < |cs| && cs[j].hash !in picked && cs[j].time <= stop
    then IsLeastInTime(sel, cs, blocks, picked, stop, modifier, i)
    else IsFirstUnpicked(cs, picked, i)
  }

  ghost predicate PickedFrom(sel: (Hash, nat) -> nat, cs: seq<Candidate>, blocks: BlockMap, picked: set<Hash>,
                             stop: int, modifier: nat, b: KernelBlock)
    requires Known(cs, blocks)
  {
    exists i: nat :: IsPick(sel, cs, blocks, picked, stop, modifier, i) && b == blocks[cs[i].hash]
  }

  /** A round picks at most one candidate. */
  lemma PickIsUnique(sel: (Hash, nat) -> nat, cs: seq<Candidate>, blocks: BlockMap, picked: set<Hash>,
                     stop: int, modifier: nat, i: nat, j: nat)
    requires Known(cs, blocks) && IsPick(sel, cs, blocks, picked, stop, modifier, i) && IsPick(sel, cs, blocks, picked, stop, modifier, j)
    ensures i == j
  {
    assert cs[i].hash !in picked && cs[j].hash !in picked;
  }

  /** With 256-bit hashes, as long as a stake candidate is in time and unpicked, a work candidate is picked only if its hash
      begins with 32 zero bits. */
  lemma StakeIsFavoured(sel: (Hash, nat) -> nat, cs: seq<Candidate>, blocks: BlockMap, picked: set<Hash>,
                        stop: int, modifier: nat, i: nat, j: nat)
    requires Known(cs, blocks) && IsPick(sel, cs, blocks, picked, stop, modifier, i)
    requires j < |cs| && cs[j].hash !in picked && cs[j].time <= stop && blocks[cs[j].hash].isStake
    requires sel(blocks[cs[j].hash].proof, modifier) < 0x1_0000_0000 * Pow2(224)
    ensures blocks[cs[i].hash].isStake || sel(blocks[cs[i].hash].proof, modifier) < Pow2(224)
  {
    hide Pow2, SelectionHash;
    var stake, pick := blocks[cs[j].hash], blocks[cs[i].hash];
    if !pick.isStake && sel(pick.proof, modifier) >= Pow2(224) {
      MulMono(Pow2(224), sel(pick.proof, modifier), 0x1_0000_0000);
      StakeBeatsWork(sel, stake, pick, modifier);
    }
  }

  /** SelectBlockFromCandidates; None also stands for a candidate whose block is unknown. */
  method SelectBlock(sel: (Hash, nat) -> nat, cs: seq<Candidate>, blocks: BlockMap, picked: set<Hash>,
                     stop: int, modifier: nat) returns (r: Option<KernelBlock>)
    requires InTimeOrder(cs)
    ensures Known(cs, blocks) ==> (r.Some? <==> SomeLeft(cs, picked))
    ensures Known(cs, blocks) && r.Some? ==> PickedFrom(sel, cs, blocks, picked, stop, modifier, r.value)
    ensures r.Some? ==> r.value.hash !in picked
  {
    var selected, best, at := false, 0, 0;
    r := None;
    for k := 0 to |cs|
      invariant selected <==> r.Some?
      invariant Known(cs, blocks) && !selected ==> forall j :: 0 <= j < k ==> cs[j].hash in picked
      invariant r.Some? ==> r.value.hash !in picked
      invariant Known(cs, blocks) && selected ==> Leading(sel, cs, blocks, picked, stop, modifier, k, at)
      invariant Known(cs, blocks) && selected ==> r.value == blocks[cs[at].hash]
      invariant selected ==> best == SelectionHash(sel, r.value, modifier)
    {
      if cs[k].hash !in blocks {
        assert !Known(cs, blocks);
        return None;
      }
      var pindex := blocks[cs[k].hash];
      if selected && pindex.time > stop {
        break;
      }
      if pindex.hash in picked {
        continue;
      }
      var hash := SelectionHash(sel, pindex, modifier);
      if selected && hash < best {
        best, r, at := hash, Some(pindex), k;
      } else if !selected {
        selected, best, r, at := true, hash, Some(pindex), k;
      }
    }
    if Known(cs, blocks) && selected {
      assert IsPick(sel, cs, blocks, picked, stop, modifier, at);
    }
  }

  /** `at` wins among the first k candidates, k being all or all but later ones past the stop. */
  ghost predicate Leading(sel: (Hash, nat) -> nat, cs: seq<Candidate>, blocks: BlockMap, picked: set<Hash>,
                          stop: int, modifier: nat, k: nat, at: nat)
    requires Known(cs, blocks) && k <= |cs|
  {
    && at < k && cs[at].hash !in picked
    && (cs[at].time > stop ==> IsFirstUnpicked(cs, picked, at))
    && forall j :: 0 <= j < k && cs[j].hash !in picked ==>
         var ha, hj := SelectionHash(sel, blocks[cs[at].hash], modifier), SelectionHash(sel, blocks[cs[j].hash], modifier);
         ha < hj || (ha == hj && at <= j)
  }

  // ----- bits of the modifier

  function Bit(m: nat, r: nat): bool {
    if r == 0 then m % 2 == 1 else Bit(m / 2, r - 1)
  }

  /** `m |= bit << r`. */
  function OrBit(m: nat, r: nat, bit: bool): nat {
    if bit && !Bit(m, r) then m + Pow2(r) else m
  }

  /** Setting a bit above the ones in use changes that bit and no other. */
  lemma {:induction false} OrBitSets(m: nat, r: nat, bit: bool, j: nat)
    requires m < Pow2(r) && j <= r
    ensures OrBit(m, r, bit) < Pow2(r + 1)
    ensures Bit(OrBit(m, r, bit), j) == if j < r then Bit(m, j) else bit
  {
    NoHighBits(m, r, r);
    if r > 0 {
      assert (m + Pow2(r)) / 2 == m / 2 + Pow2(r - 1);
      NoHighBits(m / 2, r - 1, r - 1);
      OrBitSets(m / 2, r - 1, bit, if j == 0 then 0 else j - 1);
    }
  }

  lemma {:induction false} NoHighBits(m: nat, r: nat, j: nat)
    requires m < Pow2(r) && r <= j
    ensures !Bit(m, j)
  {
    if r > 0 {
      NoHighBits(m / 2, r - 1, j - 1);
    } else if j > 0 {
      NoHighBits(0, 0, j - 1);
    }
  }

  lemma {:induction false} Pow2Grows(a: nat, b: nat)
    requires a <= b
    ensures Pow2(a) <= Pow2(b)
  {
    if a < b {
      Pow2Grows(a, b - 1);
    }
  }

  // ----- sorting the candidates

  predicate Before(a: Candidate, b: Candidate) {
    a.time < b.time || (a.time == b.time && a.hash <= b.hash)
  }

  predicate Sorted(cs: seq<Candidate>) {
    forall i, j :: 0 <= i < j < |cs| ==> Before(cs[i], cs[j])
  }

  lemma SortedByTime(cs: seq<Candidate>)
    requires Sorted(cs)
    ensures InTimeOrder(cs)
  {
  }

  lemma EmptyIsSorted()
    ensures Sorted([])
  {
  }

  function InsertAt(r: seq<Candidate>, i: nat, x: Candidate): seq<Candidate>
    requires i <= |r|
  {
    r[..i] + [x] + r[i..]
  }

  lemma InsertedInOrder(r: seq<Candidate>, i: nat, x: Candidate)
    requires Sorted(r) && i <= |r| && (i > 0 ==> Before(r[i - 1], x)) && (i < |r| ==> Before(x, r[i]))
    ensures Sorted(InsertAt(r, i, x))
  {
    var s := InsertAt(r, i, x);
    forall a, b | 0 <= a < b < |s|
      ensures Before(s[a], s[b])
    {
      assert a < i - 1 ==> Before(r[a], r[i - 1]);
      assert i < b - 1 ==> Before(r[i], r[b - 1]);
    }
  }

  lemma InsertedContents(r: seq<Candidate>, i: nat, x: Candidate)
    requires i <= |r|
    ensures multiset(InsertAt(r, i, x)) == multiset(r) + multiset{x}
  {
    assert r == r[..i] + r[i..];
  }

  /** Stands for std::sort on pairs of time and hash. */
  method Sort(s: seq<Candidate>) returns (r: seq<Candidate>)
    ensures Sorted(r) && multiset(r) == multiset(s)
  {
    hide InsertAt, Sorted;
    EmptyIsSorted();
    r := [];
    for k := 0 to |s|
      invariant Sorted(r) && multiset(r) == multiset(s[..k])
    {
      var i := |r|;
      while i > 0 && !Before(r[i - 1], s[k])
        invariant 0 <= i <= |r|
        invariant i < |r| ==> Before(s[k], r[i])
      {
        i := i - 1;
      }
      assert s[..k + 1] == s[..k] + [s[k]];
      InsertedInOrder(r, i, s[k]);
      InsertedContents(r, i, s[k]);
      r := InsertAt(r, i, s[k]);
    }
    assert s[..|s|] == s;
  }

  // ----- the modifier of the next block

  predicate DistinctBlocks(chain: seq<KernelBlock>) {
    forall i, j :: 0 <= i < j < |chain| ==> chain[i].hash != chain[j].hash
  }

  /** The last block at or before the tip that made a modifier. */
  predicate IsLastGenerated(chain: seq<KernelBlock>, i: nat) {
    i < |chain| && chain[i].generated && forall j :: i < j < |chain| ==> !chain[j].generated
  }

  method LastModifier(chain: seq<KernelBlock>) returns (r: Option<KernelBlock>)
    requires chain != []
    ensures r.None? <==> forall i :: 0 <= i < |chain| ==> !chain[i].generated
    ensures r.Some? ==> exists i: nat :: IsLastGenerated(chain, i) && r.value == chain[i]
  {
    var i := |chain| - 1;
    while i > 0 && !chain[i].generated
      invariant 0 <= i < |chain|
      invariant forall j :: i < j < |chain| ==> !chain[j].generated
    {
      i := i - 1;
    }
    if !chain[i].generated {
      return None;
    }
    assert IsLastGenerated(chain, i);
    r := Some(chain[i]);
  }

  function AsCandidate(b: KernelBlock): Candidate {
    Candidate(b.time, b.hash)
  }

  /** The candidates are the blocks from the tip back to the first one before the selection interval. */
  ghost predicate AreCandidates(chain: seq<KernelBlock>, start: int, first: nat, cs: seq<Candidate>) {
    && first <= |chain| && |cs| == |chain| - first
    && (forall i :: first <= i < |chain| ==> chain[i].time >= start)
    && (first > 0 ==> chain[first - 1].time < start)
    && (forall i :: first <= i < |chain| ==> AsCandidate(chain[i]) in cs)
    && (forall c :: c in cs ==> exists i :: first <= i < |chain| && AsCandidate(chain[i]) == c)
    && DistinctHashes(cs)
  }

  method Candidates(chain: seq<KernelBlock>, start: int) returns (cs: seq<Candidate>, ghost first: nat)
    requires DistinctBlocks(chain)
    ensures Sorted(cs) && AreCandidates(chain, start, first, cs)
  {
    var found: seq<Candidate> := [];
    var i := |chain|;
    while i > 0 && chain[i - 1].time >= start
      invariant 0 <= i <= |chain|
      invariant |found| == |chain| - i
      invariant forall k :: i <= k < |chain| ==> chain[k].time >= start
      invariant forall k :: 0 <= k < |found| ==> found[k] == AsCandidate(chain[|chain| - 1 - k])
    {
      found := found + [AsCandidate(chain[i - 1])];
      i := i - 1;
    }
    first := i;
    cs := Sort(found);
    SamePlaces(found, cs);
    forall k | first <= k < |chain|
      ensures AsCandidate(chain[k]) in cs
    {
      assert found[|chain| - 1 - k] == AsCandidate(chain[k]);
      assert AsCandidate(chain[k]) in multiset(found);
    }
    forall c | c in cs
      ensures exists i :: first <= i < |chain| && AsCandidate(chain[i]) == c
    {
      assert c in multiset(cs);
      assert c in found;
      var k :| 0 <= k < |found| && found[k] == c;
      assert AsCandidate(chain[|chain| - 1 - k]) == c;
    }
  }

  /** Distinct hashes stay distinct under any reordering. */
  lemma SamePlaces(a: seq<Candidate>, b: seq<Candidate>)
    requires multiset(a) == multiset(b)
    requires DistinctHashes(a)
    ensures |a| == |b|
    ensures DistinctHashes(b)
  {
    assert |a| == |multiset(a)| == |b|;
    forall i, j | 0 <= i < j < |b| && b[i].hash == b[j].hash
      ensures false
    {
      assert b[i] in multiset(b) && b[j] in multiset(b);
      assert b[i] in a && b[j] in a;
      if b[i] == b[j] {
        OnceOnly(a, b[i]);
        TwiceAtLeast(b, i, j);
      }
    }
  }

  lemma {:induction false} OnceOnly(a: seq<Candidate>, c: Candidate)
    requires DistinctHashes(a)
    ensures multiset(a)[c] <= 1
  {
    if a != [] {
      var n := |a| - 1;
      assert a == a[..n] + [a[n]];
      OnceOnly(a[..n], c);
      if a[n] == c {
        assert c !in a[..n];
      }
    }
  }

  lemma TwiceAtLeast(b: seq<Candidate>, i: nat, j: nat)
    requires i < j < |b| && b[i] == b[j]
    ensures multiset(b)[b[i]] >= 2
  {
    assert b == b[..j] + [b[j]] + b[j + 1..];
    assert b[i] in b[..j];
  }

  /** The picks of the first r rounds: each round's pick among the candidates not picked before. */
  ghost predicate ArePicks(sel: (Hash, nat) -> nat, cs: seq<Candidate>, blocks: BlockMap, start: int, modifier: nat,
                           picks: seq<KernelBlock>)
    requires Known(cs, blocks)
  {
    |picks| <= 64 && forall r :: 0 <= r < |picks| ==> PickedInRound(sel, cs, blocks, start, modifier, picks, r)
  }

  ghost predicate PickedInRound(sel: (Hash, nat) -> nat, cs: seq<Candidate>, blocks: BlockMap, start: int, modifier: nat,
                                picks: seq<KernelBlock>, r: nat)
    requires Known(cs, blocks) && r < |picks| <= 64
  {
    PickedFrom(sel, cs, blocks, HashesOf(picks[..r]), start + Sections(r + 1), modifier, picks[r])
  }

  ghost function HashesOf(picks: seq<KernelBlock>): set<Hash> {
    set b | b in picks :: b.hash
  }

  lemma EarlierPicksStay(sel: (Hash, nat) -> nat, cs: seq<Candidate>, blocks: BlockMap, start: int, modifier: nat,
                         picks: seq<KernelBlock>, pick: KernelBlock)
    requires Known(cs, blocks) && ArePicks(sel, cs, blocks, start, modifier, picks) && |picks| < 64
    requires PickedFrom(sel, cs, blocks, HashesOf(picks), start + Sections(|picks| + 1), modifier, pick)
    ensures ArePicks(sel, cs, blocks, start, modifier, picks + [pick])
  {
    hide PickedFrom, PickedInRound, Sections, Known, HashesOf;
    var more := picks + [pick];
    forall r | 0 <= r < |more|
      ensures PickedInRound(sel, cs, blocks, start, modifier, more, r)
    {
      PickedInSameRound(sel, cs, blocks, start, modifier, picks, pick, r);
    }
  }

  lemma PickedInSameRound(sel: (Hash, nat) -> nat, cs: seq<Candidate>, blocks: BlockMap, start: int, modifier: nat,
                          picks: seq<KernelBlock>, pick: KernelBlock, r: nat)
    requires Known(cs, blocks) && r <= |picks| < 64
    requires r < |picks| ==> PickedInRound(sel, cs, blocks, start, modifier, picks, r)
    requires r == |picks| ==> PickedFrom(sel, cs, blocks, HashesOf(picks), start + Sections(|picks| + 1), modifier, pick)
    ensures PickedInRound(sel, cs, blocks, start, modifier, picks + [pick], r)
  {
    hide PickedFrom, Sections, Known, HashesOf;
    assert (picks + [pick])[..r] == picks[..r];
    assert r == |picks| ==> picks[..r] == picks;
  }

  lemma NoPicks(sel: (Hash, nat) -> nat, cs: seq<Candidate>, blocks: BlockMap, start: int, modifier: nat)
    requires Known(cs, blocks)
    ensures ArePicks(sel, cs, blocks, start, modifier, []) && HashesOf([]) == {} && BitsOf(0, []) && Sections(0) == 0
  {
  }

  /** No block is picked twice. */
  lemma PicksAreDistinct(sel: (Hash, nat) -> nat, cs: seq<Candidate>, blocks: BlockMap, start: int, modifier: nat,
                         picks: seq<KernelBlock>, r: nat, t: nat)
    requires Known(cs, blocks) && ArePicks(sel, cs, blocks, start, modifier, picks) && r < t < |picks|
    ensures picks[r].hash != picks[t].hash
  {
    assert PickedInRound(sel, cs, blocks, start, modifier, picks, t);
    assert picks[..t][r] == picks[r];
    var i: nat :| IsPick(sel, cs, blocks, HashesOf(picks[..t]), start + Sections(t + 1), modifier, i) && picks[t] == blocks[cs[i].hash];
    assert cs[i].hash !in HashesOf(picks[..t]);
  }

  /** While fewer were picked than there are candidates, one is left. */
  lemma OneIsLeft(cs: seq<Candidate>, picks: seq<KernelBlock>)
    requires DistinctHashes(cs) && |picks| < |cs|
    ensures SomeLeft(cs, HashesOf(picks))
  {
    var picked := HashesOf(picks);
    FewHashes(picks);
    var hashes := set i | 0 <= i < |cs| :: cs[i].hash;
    CountHashes(cs, hashes);
    if forall i :: 0 <= i < |cs| ==> cs[i].hash in picked {
      assert hashes <= picked;
      SubsetSize(hashes, picked);
    }
  }

  lemma {:induction false} FewHashes(picks: seq<KernelBlock>)
    ensures |HashesOf(picks)| <= |picks|
  {
    if picks != [] {
      var n := |picks| - 1;
      assert picks == picks[..n] + [picks[n]];
      FewHashes(picks[..n]);
      HashesGrow(picks[..n], picks[n]);
    }
  }

  lemma {:induction false} CountHashes(cs: seq<Candidate>, hashes: set<Hash>)
    requires DistinctHashes(cs)
    requires hashes == set i | 0 <= i < |cs| :: cs[i].hash
    ensures |hashes| == |cs|
  {
    if cs != [] {
      var n := |cs| - 1;
      var rest := set i | 0 <= i < |cs[..n]| :: cs[..n][i].hash;
      CountHashes(cs[..n], rest);
      forall h
        ensures h in hashes <==> h in rest + {cs[n].hash}
      {
        if h in rest {
          var i :| 0 <= i < |cs[..n]| && cs[..n][i].hash == h;
          assert cs[i].hash == h;
        }
        if h in hashes {
          var i :| 0 <= i < |cs| && cs[i].hash == h;
          assert i < n ==> cs[..n][i].hash == h;
        }
      }
      assert hashes == rest + {cs[n].hash};
    }
  }

  /** The 64 rounds: every round succeeds, and bit r is the r-th pick's entropy bit. */
  method SelectRounds(sel: (Hash, nat) -> nat, cs: seq<Candidate>, blocks: BlockMap, start: int, modifier: nat)
    returns (ok: bool, made: nat, ghost picks: seq<KernelBlock>)
    requires InTimeOrder(cs) && Known(cs, blocks)
    requires DistinctHashes(cs)
    ensures ok && |picks| == Min(64, |cs|) && ArePicks(sel, cs, blocks, start, modifier, picks)
    ensures BitsOf(made, picks)
  {
    hide PickedFrom, PickedInRound, ArePicks, Sections, IntervalSection, OrBit, BitsOf, Known, InTimeOrder, DistinctHashes, HashesOf, SomeLeft;
    NoPicks(sel, cs, blocks, start, modifier);
    made, picks := 0, [];
    var stop := start;
    var picked: map<Hash, KernelBlock> := map[];
    for round := 0 to Min(64, |cs|)
      invariant |picks| == round && stop == start + Sections(round)
      invariant picked.Keys == HashesOf(picks)
      invariant ArePicks(sel, cs, blocks, start, modifier, picks)
      invariant BitsOf(made, picks)
    {
      stop := stop + IntervalSection(round);
      NextSection(round);
      OneIsLeft(cs, picks);
      var pick := SelectBlock(sel, cs, blocks, picked.Keys, stop, modifier);
      if pick.None? {
        ok := false;
        return;
      }
      EarlierPicksStay(sel, cs, blocks, start, modifier, picks, pick.value);
      OneMoreBit(made, picks, pick.value);
      made := OrBit(made, round, pick.value.entropy);
      HashesGrow(picks, pick.value);
      picks := picks + [pick.value];
      picked := picked[pick.value.hash := pick.value];
    }
    ok := true;
  }

  ghost predicate BitsOf(made: nat, picks: seq<KernelBlock>) {
    made < Pow2(|picks|) && forall r :: 0 <= r < |picks| ==> Bit(made, r) == picks[r].entropy
  }

  lemma OneMoreBit(made: nat, picks: seq<KernelBlock>, pick: KernelBlock)
    requires BitsOf(made, picks)
    ensures BitsOf(OrBit(made, |picks|, pick.entropy), picks + [pick])
  {
    hide Bit, OrBit;
    forall j | 0 <= j <= |picks|
      ensures Bit(OrBit(made, |picks|, pick.entropy), j) == (picks + [pick])[j].entropy
    {
      OrBitSets(made, |picks|, pick.entropy, j);
    }
    OrBitSets(made, |picks|, pick.entropy, |picks|);
  }

  lemma HashesGrow(picks: seq<KernelBlock>, b: KernelBlock)
    ensures HashesOf(picks + [b]) == HashesOf(picks) + {b.hash}
  {
    forall h
      ensures h in HashesOf(picks + [b]) <==> h in HashesOf(picks) + {b.hash}
    {
      if h in HashesOf(picks) {
        var x :| x in picks && x.hash == h;
        assert x in picks + [b];
      }
      assert b in picks + [b];
    }
  }

  /** Where the selection interval of a block begins. */
  ghost function SelectionStart(time: nat): int {
    time / MODIFIER_INTERVAL * MODIFIER_INTERVAL - Sections(64)
  }

  /** The 64 sections end exactly where the block's own ten minutes begin. */
  lemma SectionsEndOnTime(time: nat)
    ensures var end := SelectionStart(time) + Sections(64);
            end % 600 == 0 && end <= time < end + 600
  {
    hide Sections;
  }

  /** What a new modifier is made of. */
  ghost predicate IsNewModifier(sel: (Hash, nat) -> nat, chain: seq<KernelBlock>, blocks: BlockMap, last: KernelBlock,
                                modifier: nat, cs: seq<Candidate>, picks: seq<KernelBlock>)
    requires chain != []
  {
    var start := SelectionStart(chain[|chain| - 1].time);
    && Known(cs, blocks) && Sorted(cs) && (exists first :: AreCandidates(chain, start, first, cs))
    && |picks| == Min(64, |cs|) && ArePicks(sel, cs, blocks, start, last.modifier, picks)
    && modifier < Pow2(64)
    && forall r :: 0 <= r < 64 ==> Bit(modifier, r) == (r < |picks| && picks[r].entropy)
  }

  lemma AllBits(made: nat, picks: seq<KernelBlock>)
    requires BitsOf(made, picks) && |picks| <= 64
    ensures made < Pow2(64) && forall r :: 0 <= r < 64 ==> Bit(made, r) == (r < |picks| && picks[r].entropy)
  {
    hide Pow2, Bit;
    forall r | 0 <= r < 64
      ensures Bit(made, r) == (r < |picks| && picks[r].entropy)
    {
      if r >= |picks| {
        NoHighBits(made, |picks|, r);
      }
    }
    Pow2Grows(|picks|, 64);
  }

  /** The modifier after `chain`, whose last own modifier was made by block i: kept within one interval, else new. */
  ghost predicate IsNext(sel: (Hash, nat) -> nat, chain: seq<KernelBlock>, blocks: BlockMap, i: nat, modifier: nat, generated: bool)
    requires chain != []
  {
    && IsLastGenerated(chain, i)
    && generated == (chain[i].time / MODIFIER_INTERVAL < chain[|chain| - 1].time / MODIFIER_INTERVAL)
    && (if generated then exists cs, picks :: IsNewModifier(sel, chain, blocks, chain[i], modifier, cs, picks)
        else modifier == chain[i].modifier)
  }

  /** ComputeNextStakeModifier over the chain from genesis to the previous block. It fails only where no
      block of the chain ever made a modifier. */
  method ComputeNextStakeModifier(sel: (Hash, nat) -> nat, chain: seq<KernelBlock>, blocks: BlockMap)
    returns (ok: bool, modifier: nat, generated: bool)
    requires DistinctBlocks(chain)
    requires forall i :: 0 <= i < |chain| ==> chain[i].hash in blocks && blocks[chain[i].hash] == chain[i]
    ensures chain == [] ==> ok && modifier == 0 && generated
    ensures chain != [] ==> (ok <==> exists i: nat :: IsLastGenerated(chain, i))
    ensures chain != [] && ok ==> exists i: nat :: IsNext(sel, chain, blocks, i, modifier, generated)
  {
    hide Sections, Pow2, Bit, ArePicks, HashesOf, Sorted, DistinctHashes, BitsOf;
    ok, modifier, generated := false, 0, false;
    if chain == [] {
      return true, 0, true;
    }
    var last := LastModifier(chain);
    if last.None? {
      return;
    }
    ghost var i: nat :| IsLastGenerated(chain, i) && last.value == chain[i];
    modifier := last.value.modifier;
    var tip := chain[|chain| - 1];
    if last.value.time / MODIFIER_INTERVAL >= tip.time / MODIFIER_INTERVAL {
      assert IsNext(sel, chain, blocks, i, modifier, false);
      return true, modifier, false;
    }
    var interval := SelectionInterval();
    var start := tip.time / MODIFIER_INTERVAL * MODIFIER_INTERVAL - interval;
    var cs, first := Candidates(chain, start);
    SortedByTime(cs);
    forall k | 0 <= k < |cs|
      ensures cs[k].hash in blocks && blocks[cs[k].hash].hash == cs[k].hash && blocks[cs[k].hash].time == cs[k].time
    {
      assert cs[k] in cs;
      var j :| first <= j < |chain| && AsCandidate(chain[j]) == cs[k];
    }
    ghost var picks;
    var made;
    ok, made, picks := SelectRounds(sel, cs, blocks, start, modifier);
    AllBits(made, picks);
    modifier, generated := made, true;
    assert IsNewModifier(sel, chain, blocks, chain[i], modifier, cs, picks);
    assert IsNext(sel, chain, blocks, i, modifier, generated);
  }

  // ----- every node computes the same modifier

  predicate Within(a: seq<Candidate>, b: seq<Candidate>) {
    forall i :: 0 <= i < |a| ==> a[i] in b
  }

  /** Two sorted lists of the same distinct candidates are the same list. */
  lemma {:induction false} SortedIsUnique(a: seq<Candidate>, b: seq<Candidate>)
    requires Sorted(a) && Sorted(b) && DistinctHashes(a) && DistinctHashes(b)
    requires Within(a, b) && Within(b, a)
    ensures a == b
    decreases |a|
  {
    NotEmptyEither(a, b);
    NotEmptyEither(b, a);
    if a != [] {
      var n, m := |a| - 1, |b| - 1;
      LastIsLast(a, b);
      LastIsLast(b, a);
      assert a[n] == b[m];
      WithoutLast(a, b);
      WithoutLast(b, a);
      SortedIsUnique(a[..n], b[..m]);
      assert a == a[..n] + [a[n]] && b == b[..m] + [b[m]];
    }
  }

  lemma NotEmptyEither(a: seq<Candidate>, b: seq<Candidate>)
    requires Within(a, b)
    ensures a != [] ==> b != []
  {
    if a != [] {
      assert a[0] in b;
    }
  }

  lemma LastIsLast(a: seq<Candidate>, b: seq<Candidate>)
    requires a != [] && b != [] && Sorted(a) && Within(b, a)
    ensures Before(b[|b| - 1], a[|a| - 1])
  {
    assert b[|b| - 1] in a;
    var i :| 0 <= i < |a| && a[i] == b[|b| - 1];
  }

  lemma WithoutLast(a: seq<Candidate>, b: seq<Candidate>)
    requires a != [] && b != [] && Sorted(a) && DistinctHashes(a) && Within(a, b) && a[|a| - 1] == b[|b| - 1]
    ensures Sorted(a[..|a| - 1]) && DistinctHashes(a[..|a| - 1])
    ensures Within(a[..|a| - 1], b[..|b| - 1])
  {
    var n, m := |a| - 1, |b| - 1;
    forall i | 0 <= i < n
      ensures a[..n][i] in b[..m]
    {
      assert a[i].hash != a[n].hash;
      assert a[i] in b;
      var j :| 0 <= j < |b| && b[j] == a[i];
      assert b[..m][j] == a[i];
    }
  }

  lemma SameCandidates(chain: seq<KernelBlock>, start: int, first: nat, a: seq<Candidate>, b: seq<Candidate>)
    requires AreCandidates(chain, start, first, a) && AreCandidates(chain, start, first, b)
    ensures Within(a, b)
  {
    forall i | 0 <= i < |a|
      ensures a[i] in b
    {
      assert a[i] in a;
    }
  }

  /** The interval's start decides the candidates. */
  lemma CandidatesAreUnique(chain: seq<KernelBlock>, start: int, first: nat, first': nat, a: seq<Candidate>, b: seq<Candidate>)
    requires AreCandidates(chain, start, first, a) && AreCandidates(chain, start, first', b) && Sorted(a) && Sorted(b)
    ensures a == b
  {
    hide Sorted, DistinctHashes;
    assert first == first';
    SameCandidates(chain, start, first, a, b);
    SameCandidates(chain, start, first, b, a);
    SortedIsUnique(a, b);
  }

  lemma {:induction false} PicksAreUnique(sel: (Hash, nat) -> nat, cs: seq<Candidate>, blocks: BlockMap, start: int, modifier: nat,
                                          a: seq<KernelBlock>, b: seq<KernelBlock>, r: nat)
    requires Known(cs, blocks) && ArePicks(sel, cs, blocks, start, modifier, a) && ArePicks(sel, cs, blocks, start, modifier, b)
    requires |a| == |b| && r <= |a|
    ensures a[..r] == b[..r]
  {
    hide IsPick, HashesOf, Sections, Known;
    if r > 0 {
      var k := r - 1;
      PicksAreUnique(sel, cs, blocks, start, modifier, a, b, k);
      assert PickedInRound(sel, cs, blocks, start, modifier, a, k) && PickedInRound(sel, cs, blocks, start, modifier, b, k);
      var picked, stop := HashesOf(a[..k]), start + Sections(k + 1);
      PickedOnce(sel, cs, blocks, picked, stop, modifier, a[k], b[k]);
      assert a[..r] == a[..k] + [a[k]] && b[..r] == b[..k] + [b[k]];
    }
  }

  lemma PickedOnce(sel: (Hash, nat) -> nat, cs: seq<Candidate>, blocks: BlockMap, picked: set<Hash>,
                   stop: int, modifier: nat, x: KernelBlock, y: KernelBlock)
    requires Known(cs, blocks)
    requires PickedFrom(sel, cs, blocks, picked, stop, modifier, x) && PickedFrom(sel, cs, blocks, picked, stop, modifier, y)
    ensures x == y
  {
    var i: nat :| IsPick(sel, cs, blocks, picked, stop, modifier, i) && x == blocks[cs[i].hash];
    var j: nat :| IsPick(sel, cs, blocks, picked, stop, modifier, j) && y == blocks[cs[j].hash];
    PickIsUnique(sel, cs, blocks, picked, stop, modifier, i, j);
  }

  /** A number is the sum of its bits. */
  lemma {:induction false} BitsDecide(m: nat, m': nat, n: nat)
    requires m < Pow2(n) && m' < Pow2(n) && forall r :: 0 <= r < n ==> Bit(m, r) == Bit(m', r)
    ensures m == m'
  {
    if n > 0 {
      assert Bit(m, 0) == Bit(m', 0);
      forall r | 0 <= r < n - 1
        ensures Bit(m / 2, r) == Bit(m' / 2, r)
      {
        assert Bit(m, r + 1) == Bit(m', r + 1);
      }
      BitsDecide(m / 2, m' / 2, n - 1);
    }
  }

  /** Nodes that agree on the chain agree on its next modifier. */
  lemma NextModifierIsDetermined(sel: (Hash, nat) -> nat, chain: seq<KernelBlock>, blocks: BlockMap,
                                 i: nat, i': nat, m: nat, m': nat, generated: bool, generated': bool)
    requires chain != [] && IsNext(sel, chain, blocks, i, m, generated) && IsNext(sel, chain, blocks, i', m', generated')
    ensures m == m' && generated == generated'
  {
    hide IsNewModifier;
    assert i == i';
    if generated {
      var cs, picks :| IsNewModifier(sel, chain, blocks, chain[i], m, cs, picks);
      var cs', picks' :| IsNewModifier(sel, chain, blocks, chain[i], m', cs', picks');
      NewModifierIsDetermined(sel, chain, blocks, chain[i], m, m', cs, cs', picks, picks');
    }
  }

  lemma NewModifierIsDetermined(sel: (Hash, nat) -> nat, chain: seq<KernelBlock>, blocks: BlockMap, last: KernelBlock,
                                m: nat, m': nat, cs: seq<Candidate>, cs': seq<Candidate>,
                                picks: seq<KernelBlock>, picks': seq<KernelBlock>)
    requires chain != [] && IsNewModifier(sel, chain, blocks, last, m, cs, picks) && IsNewModifier(sel, chain, blocks, last, m', cs', picks')
    ensures m == m'
  {
    hide Sections, Pow2, Bit, ArePicks, Sorted, Known, AreCandidates;
    var start := SelectionStart(chain[|chain| - 1].time);
    var first :| AreCandidates(chain, start, first, cs);
    var first' :| AreCandidates(chain, start, first', cs');
    CandidatesAreUnique(chain, start, first, first', cs, cs');
    PicksAreUnique(sel, cs, blocks, start, last.modifier, picks, picks', |picks|);
    assert picks == picks[..|picks|] && picks' == picks'[..|picks'|];
    BitsDecide(m, m', 64);
  }
}
