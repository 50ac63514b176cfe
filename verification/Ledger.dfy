/** Connecting and disconnecting blocks: the operations of the source, and exactly when they accept. */
module Ledger {
  import opened Primitives
  import opened TxDatabase
  import opened LedgerSpec
  import opened LedgerMoney

  /** What the checks ask of code outside the ledger. Every theorem holds for every environment. */
  datatype Env = Env(
    pool: set<Hash>,                    // transactions in the memory pool
    recent: set<(nat, nat)>,            // file and position of the blocks above coinbase maturity
    protocolV3: nat -> bool,
    sigOk: (Tx, Tx, nat) -> bool,       // VerifySignature, or the checkpoint that skips it
    p2shSigOps: Tx -> nat,
    maxSigOps: nat,
    checkBlock: Block -> bool,          // proof of work, size, time drift, signature, Merkle root
    coinAge: Tx -> Option<nat>,
    bestHeight: int,
    bestSupply: int)

  type Prevs = map<Hash, (TxIndex, Tx)>

  // ----- FetchInputs

  predicate FetchOk(env: Env, ix: Index, disk: Disk, o: OutPoint) {
    && InRange(ix, o)
    && (ix[o.hash].pos == Pos(1, 1, 1) ==> o.hash in env.pool)
    && ix[o.hash].pos in disk
    && o.n < |disk[ix[o.hash].pos].vout|
  }

  predicate Fetchable(env: Env, ix: Index, disk: Disk, vin: seq<OutPoint>) {
    forall i :: 0 <= i < |vin| ==> FetchOk(env, ix, disk, vin[i])
  }

  /** What the fetched map says about one id: its current index entry and its transaction on disk. */
  predicate PrevMatches(prevs: Prevs, ix: Index, disk: Disk, h: Hash) {
    h in prevs && h in ix && prevs[h].0 == ix[h] && ix[h].pos in disk && prevs[h].1 == disk[ix[h].pos]
  }

  /** Queued changes of the block win over the database. */
  method FetchInputs(db: TxDb, env: Env, disk: Disk, queued: Index, tx: Tx) returns (r: Option<Prevs>)
    ensures tx.IsCoinBase() ==> r == Some(map[])
    ensures !tx.IsCoinBase() ==> (r.Some? <==> Fetchable(env, db.View().txs + queued, disk, tx.vin))
    ensures !tx.IsCoinBase() && r.Some? ==>
      forall o :: o in tx.vin ==> PrevMatches(r.value, db.View().txs + queued, disk, o.hash)
  {
    if tx.IsCoinBase() {
      return Some(map[]);
    }
    var prevs: Prevs := map[];
    ghost var ix := db.View().txs + queued;
    for i := 0 to |tx.vin|
      invariant forall h :: h in prevs ==> PrevMatches(prevs, ix, disk, h)
      invariant forall h :: h in prevs && ix[h].pos == Pos(1, 1, 1) ==> h in env.pool
      invariant forall j :: 0 <= j < i ==> tx.vin[j].hash in prevs
    {
      var h := tx.vin[i].hash;
      if h in prevs {
        continue;
      }
      var found := db.ReadTxIndex(h);
      if h in queued {
        found := Some(queued[h]);
      }
      if found.None? {
        return None;
      }
      if found.value.pos == Pos(1, 1, 1) && h !in env.pool {
        return None;
      }
      if found.value.pos !in disk {
        return None;
      }
      prevs := prevs[h := (found.value, disk[found.value.pos])];
    }
    for i := 0 to |tx.vin|
      invariant forall j :: 0 <= j < i ==> FetchOk(env, ix, disk, tx.vin[j])
    {
      var o := tx.vin[i];
      assert PrevMatches(prevs, ix, disk, o.hash);
      if o.n >= |prevs[o.hash].1.vout| || o.n >= |prevs[o.hash].0.spent| {
        return None;
      }
    }
    r := Some(prevs);
  }

  // ----- ConnectInputs

  /** The inexpensive checks on the i-th input. */
  predicate CheapOk(env: Env, ix: Index, disk: Disk, tx: Tx, i: nat)
    requires i < |tx.vin| && FetchOk(env, ix, disk, tx.vin[i])
  {
    var o := tx.vin[i];
    var pos := ix[o.hash].pos;
    var prev := disk[pos];
    && !((prev.IsCoinBase() || prev.IsCoinStake()) && pos.Pos? && (pos.file, pos.blockPos) in env.recent)
    && prev.time <= tx.time
    && (env.protocolV3(tx.time) ==> !prev.vout[o.n].IsEmpty())
    && MoneyRange(prev.vout[o.n].value)
    && MoneyRange(ValueIn(ix, disk, tx.vin[..i + 1]))
  }

  predicate SignedOk(env: Env, ix: Index, disk: Disk, tx: Tx, i: nat)
    requires i < |tx.vin| && FetchOk(env, ix, disk, tx.vin[i])
  {
    env.sigOk(disk[ix[tx.vin[i].hash].pos], tx, i)
  }

  /** The fee of an ordinary transaction is a valid amount. */
  predicate FeeOk(ix: Index, disk: Disk, tx: Tx) {
    tx.IsCoinStake() || MoneyRange(ValueIn(ix, disk, tx.vin) - SumOut(tx.vout))
  }

  ghost predicate ConnectInputsOk(env: Env, ix: Index, disk: Disk, tx: Tx)
    requires Fetchable(env, ix, disk, tx.vin)
  {
    && (forall i :: 0 <= i < |tx.vin| ==> CheapOk(env, ix, disk, tx, i))
    && InputsSpendable(ix, tx.vin)
    && (forall i :: 0 <= i < |tx.vin| ==> SignedOk(env, ix, disk, tx, i))
    && FeeOk(ix, disk, tx)
  }

  /** The first loop: every inexpensive check, and the sum of the inputs. */
  method CheckInputs(env: Env, prevs: Prevs, tx: Tx, ghost ix: Index, ghost disk: Disk) returns (ok: bool, valueIn: int)
    requires Fetchable(env, ix, disk, tx.vin)
    requires forall o :: o in tx.vin ==> PrevMatches(prevs, ix, disk, o.hash)
    ensures ok <==> forall i :: 0 <= i < |tx.vin| ==> CheapOk(env, ix, disk, tx, i)
    ensures ok ==> valueIn == ValueIn(ix, disk, tx.vin)
  {
    valueIn := 0;
    for i := 0 to |tx.vin|
      invariant valueIn == ValueIn(ix, disk, tx.vin[..i])
      invariant forall j :: 0 <= j < i ==> CheapOk(env, ix, disk, tx, j)
    {
      var o := tx.vin[i];
      assert PrevMatches(prevs, ix, disk, o.hash) && FetchOk(env, ix, disk, o);
      var (index, prev) := prevs[o.hash];
      assert tx.vin[..i + 1][..i] == tx.vin[..i];
      valueIn := valueIn + prev.vout[o.n].value;
      if (prev.IsCoinBase() || prev.IsCoinStake()) && index.pos.Pos? &&
         (index.pos.file, index.pos.blockPos) in env.recent {
        assert !CheapOk(env, ix, disk, tx, i);
        return false, valueIn;
      }
      if prev.time > tx.time {
        assert !CheapOk(env, ix, disk, tx, i);
        return false, valueIn;
      }
      if env.protocolV3(tx.time) && prev.vout[o.n].IsEmpty() {
        assert !CheapOk(env, ix, disk, tx, i);
        return false, valueIn;
      }
      if !MoneyRange(prev.vout[o.n].value) || !MoneyRange(valueIn) {
        assert !CheapOk(env, ix, disk, tx, i);
        return false, valueIn;
      }
    }
    assert tx.vin[..|tx.vin|] == tx.vin;
    ok := true;
  }

  /** The second loop: conflicts and signatures, marking each output as it goes. */
  method SpendInputs(env: Env, prevs: Prevs, queued: Index, tx: Tx, pos: DiskTxPos,
                     ghost db: Index, ghost disk: Disk)
    returns (ok: bool, queued': Index)
    requires pos.Pos?
    requires Fetchable(env, db + queued, disk, tx.vin)
    requires forall o :: o in tx.vin ==> PrevMatches(prevs, db + queued, disk, o.hash)
    ensures ok <==> InputsSpendable(db + queued, tx.vin) &&
                    forall i :: 0 <= i < |tx.vin| ==> SignedOk(env, db + queued, disk, tx, i)
    ensures ok ==> db + queued' == Mark(db + queued, tx.vin, pos)
  {
    hide Mark, InputsSpendable;
    ghost var ix, cur := db + queued, db + queued;
    var inputs := prevs;
    queued' := queued;
    NothingSpent(ix, tx.vin, pos);
    for i := 0 to |tx.vin|
      invariant cur == db + queued' == Mark(ix, tx.vin[..i], pos)
      invariant forall o :: o in tx.vin ==> Tracks(inputs, cur, prevs, o.hash)
      invariant InputsSpendable(ix, tx.vin[..i])
      invariant forall j :: 0 <= j < i ==> SignedOk(env, ix, disk, tx, j)
    {
      var o := tx.vin[i];
      assert PrevMatches(prevs, ix, disk, o.hash) && FetchOk(env, ix, disk, o) && Tracks(inputs, cur, prevs, o.hash);
      var (entry, prev) := inputs[o.hash];
      MarkOneMore(ix, tx.vin, i, pos);
      if entry.spent[o.n] != Null {
        SpentTwice(ix, tx.vin, i, pos);
        return false, queued';
      }
      if !env.sigOk(prev, tx, i) {
        assert !SignedOk(env, ix, disk, tx, i);
        return false, queued';
      }
      entry := entry.(spent := entry.spent[o.n := pos]);
      inputs := inputs[o.hash := (entry, prev)];
      queued' := queued'[o.hash := entry];
      cur := cur[o.hash := entry];
    }
    assert tx.vin[..|tx.vin|] == tx.vin;
    ok := true;
  }

  /** The working copy of one input holds its current entry and its transaction. */
  ghost predicate Tracks(inputs: Prevs, cur: Index, prevs: Prevs, h: Hash) {
    h in inputs && h in cur && h in prevs && inputs[h].0 == cur[h] && inputs[h].1 == prevs[h].1
  }

  lemma NothingSpent(ix: Index, vin: seq<OutPoint>, pos: DiskTxPos)
    ensures Mark(ix, vin[..0], pos) == ix && InputsSpendable(ix, vin[..0])
  {
    assert vin[..0] == [];
    MarkNothing(ix, pos);
  }

  lemma MarkOneMore(ix: Index, vin: seq<OutPoint>, i: nat, pos: DiskTxPos)
    requires i < |vin| && InRange(ix, vin[i]) && pos.Pos?
    requires InputsSpendable(ix, vin[..i])
    ensures var m, o := Mark(ix, vin[..i], pos), vin[i];
            && InRange(m, o)
            && Mark(ix, vin[..i + 1], pos) == m[o.hash := m[o.hash].(spent := m[o.hash].spent[o.n := pos])]
            && (m[o.hash].spent[o.n] == Null ==> InputsSpendable(ix, vin[..i + 1]))
  {
    var o := vin[i];
    assert vin[..i + 1] == vin[..i] + [o];
    MarkSnoc(ix, vin[..i], o, pos);
    MarkAt(ix, vin[..i], pos, o.hash);
  }

  lemma SpentTwice(ix: Index, vin: seq<OutPoint>, i: nat, pos: DiskTxPos)
    requires i < |vin| && InRange(ix, vin[i]) && InRange(Mark(ix, vin[..i], pos), vin[i])
    requires !IsUnspent(Mark(ix, vin[..i], pos), vin[i])
    ensures !InputsSpendable(ix, vin)
  {
    var o := vin[i];
    MarkAt(ix, vin[..i], pos, o.hash);
    if o in vin[..i] {
      var j :| 0 <= j < i && vin[j] == o;
    } else {
      assert o in vin && !IsUnspent(ix, o);
    }
  }

  method ConnectInputs(env: Env, prevs: Prevs, queued: Index, tx: Tx, pos: DiskTxPos,
                       ghost db: Index, ghost disk: Disk)
    returns (ok: bool, queued': Index)
    requires pos.Pos? && !tx.IsCoinBase()
    requires Fetchable(env, db + queued, disk, tx.vin)
    requires forall o :: o in tx.vin ==> PrevMatches(prevs, db + queued, disk, o.hash)
    ensures ok <==> ConnectInputsOk(env, db + queued, disk, tx)
    ensures ok ==> db + queued' == Mark(db + queued, tx.vin, pos)
  {
    queued' := queued;
    var cheap, valueIn := CheckInputs(env, prevs, tx, db + queued, disk);
    if !cheap {
      return false, queued;
    }
    ok, queued' := SpendInputs(env, prevs, queued, tx, pos, db, disk);
    if ok && !tx.IsCoinStake() {
      var valueOut := SumOut(tx.vout);
      if valueIn < valueOut {
        return false, queued';
      }
      var fee := valueIn - valueOut;
      if fee < 0 {
        return false, queued';
      }
      if !MoneyRange(fee) {
        return false, queued';
      }
    }
  }

  // ----- rewards

  const POS_DIVISOR := 365 * 33 + 8

  /** GetProofOfWorkReward, branch by branch. */
  function ProofOfWorkReward(height: nat, fees: int, bestSupply: int): int {
    if height == 0 then COIN
    else if height <= 10 then LateSubsidy(height, COIN / 10) + fees
    else if height > 10 then LateSubsidy(height, if height < 356 then 50_000_000 * COIN else 5000 * COIN) + fees
    else if bestSupply > MAX_SINGLE_TX then fees
    else LateSubsidy(height, 5000 * COIN) + fees
  }

  function LateSubsidy(height: int, subsidy: int): int {
    if height >= 980_950 then 500 * COIN else subsidy
  }

  /** The reward ConnectBlock expects: the switch-over blocks keep the legacy payout. */
  function ExpectedCoinbase(height: nat, fees: int, bestSupply: int): int {
    if 980_949 < height < 990_000 then 5000 * COIN + fees else ProofOfWorkReward(height, fees, bestSupply)
  }

  function StakeRate(bestHeight: int): nat {
    if bestHeight > 3_000_300 then CENT
    else if bestHeight > 2_000_800 then 4 * CENT
    else if bestHeight > 20_000 then 19 * CENT
    else 250 * CENT
  }

  function ProofOfStakeReward(coinAge: nat, fees: int, bestHeight: int, bestSupply: int): int {
    if bestHeight <= 20_000 && bestSupply > MAX_SINGLE_TX then fees
    else LateSubsidy(bestHeight, coinAge * StakeRate(bestHeight) * 33 / POS_DIVISOR) + fees
  }

  /** The hard cap never binds proof of work: the two height tests before it cover all heights, so above genesis
      new coins are created whatever the supply. */
  lemma WorkIgnoresCap(height: nat, fees: int, supply: int, supply': int)
    requires height > 0
    ensures ProofOfWorkReward(height, fees, supply) == ProofOfWorkReward(height, fees, supply') > fees
    ensures ExpectedCoinbase(height, fees, supply) == ExpectedCoinbase(height, fees, supply') > fees
  {
  }

  /** A supply beyond the cap, and a reward of 500 new coins all the same. */
  lemma WorkBeyondCap()
    ensures ProofOfWorkReward(2_000_000, 7, MAX_SINGLE_TX + 1) == 500 * COIN + 7
  {
  }

  /** With the supply beyond the cap a stake creates nothing exactly in the first phase, or later while its coin
      age is too small to earn anything. */
  lemma StakeRespectsCap(coinAge: nat, fees: int, bestHeight: int, bestSupply: int)
    requires bestSupply > MAX_SINGLE_TX
    ensures ProofOfStakeReward(coinAge, fees, bestHeight, bestSupply) == fees <==>
            bestHeight <= 20_000 || (bestHeight < 980_950 && coinAge * StakeRate(bestHeight) * 33 < POS_DIVISOR)
  {
    QuotientIsZero(coinAge * StakeRate(bestHeight) * 33, POS_DIVISOR);
  }

  lemma QuotientIsZero(n: nat, d: nat)
    requires d > 0
    ensures n / d == 0 <==> n < d
  {
    if n >= d {
      QuotientFalls(n, d, n);
    }
  }

  /** One day-coin staked at height 100000 with the supply beyond the cap creates coins. */
  lemma StakeBeyondCap()
    ensures ProofOfStakeReward(1, 7, 100_000, MAX_SINGLE_TX + 1) > 7
  {
    StakeRespectsCap(1, 7, 100_000, MAX_SINGLE_TX + 1);
  }

  // ----- CheckBlock

  /** The i-th output: empty only where a marker may be, and in range, alone and with those before it. */
  predicate OutputOk(tx: Tx, i: nat)
    requires i < |tx.vout|
  {
    && (tx.vout[i].IsEmpty() ==> tx.IsCoinBase() || tx.IsCoinStake())
    && MoneyRange(tx.vout[i].value) && MoneyRange(SumOut(tx.vout[..i + 1]))
  }

  predicate CheckTransaction(tx: Tx) {
    && tx.vin != [] && tx.vout != []
    && (forall i :: 0 <= i < |tx.vout| ==> OutputOk(tx, i))
    && Distinct(tx.vin)
    && (tx.IsCoinBase() || forall o :: o in tx.vin ==> !o.IsNull())
  }

  predicate CheckBlock(env: Env, block: Block) {
    var vtx := block.vtx;
    && vtx != [] && vtx[0].IsCoinBase()
    && (forall i :: 1 <= i < |vtx| ==> !vtx[i].IsCoinBase())
    && (forall i :: 2 <= i < |vtx| ==> !vtx[i].IsCoinStake())
    && (block.IsProofOfStake() ==> |vtx[0].vout| == 1 && vtx[0].vout[0].IsEmpty())
    && (forall i :: 0 <= i < |vtx| ==> CheckTransaction(vtx[i]) && vtx[i].time <= block.time)
    && DistinctIds(vtx)
    && env.checkBlock(block)
  }

  // ----- ConnectBlock

  datatype Tally = Tally(fees: int, valueIn: int, valueOut: int, coinbase: int, stake: int, sigOps: int)

  const NO_TALLY := Tally(0, 0, 0, 0, 0, 0)

  /** When a transaction with inputs is accepted, after the duplicate-id rule. */
  ghost predicate AcceptSpender(env: Env, ix: Index, disk: Disk, tx: Tx, t: Tally) {
    && Fetchable(env, ix, disk, tx.vin)
    && t.sigOps + tx.sigOps + env.p2shSigOps(tx) <= env.maxSigOps
    && t.valueIn + ValueIn(ix, disk, tx.vin) >= 0
    && t.valueOut + SumOut(tx.vout) >= 0
    && ConnectInputsOk(env, ix, disk, tx)
  }

  /** When the next transaction of a block is accepted; `db` is the index before the block. */
  ghost predicate AcceptTx(env: Env, db: Index, ix: Index, disk: Disk, tx: Tx, t: Tally) {
    && FullySpent(db, tx.hash)
    && t.sigOps + tx.sigOps <= env.maxSigOps
    && (tx.IsCoinBase() || AcceptSpender(env, ix, disk, tx, t))
  }

  function TallyTx(env: Env, ix: Index, disk: Disk, tx: Tx, t: Tally): Tally {
    var valueIn, valueOut := ValueIn(ix, disk, tx.vin), SumOut(tx.vout);
    if tx.IsCoinBase() then
      t.(coinbase := valueOut, valueOut := t.valueOut + valueOut, sigOps := t.sigOps + tx.sigOps)
    else
      t.(valueIn := t.valueIn + valueIn, valueOut := t.valueOut + valueOut,
         fees := if tx.IsCoinStake() then t.fees else t.fees + valueIn - valueOut,
         stake := if tx.IsCoinStake() then valueOut - valueIn else t.stake,
         sigOps := t.sigOps + tx.sigOps + env.p2shSigOps(tx))
  }

  /** The running sums after the first k transactions, if all of them are accepted. */
  ghost function RunTxs(env: Env, db: Index, disk: Disk, vtx: seq<Tx>, at: seq<DiskTxPos>, k: nat): Option<Tally>
    requires k <= |vtx| == |at|
  {
    if k == 0 then Some(NO_TALLY)
    else
      var before := RunTxs(env, db, disk, vtx, at, k - 1);
      var ix := ConnectTxs(db, vtx, at, k - 1);
      if before.Some? && AcceptTx(env, db, ix, disk, vtx[k - 1], before.value)
      then Some(TallyTx(env, ix, disk, vtx[k - 1], before.value)) else None
  }

  function CompactSize(n: nat): nat {
    if n < 253 then 1 else if n <= 0xFFFF then 3 else if n <= 0xFFFF_FFFF then 5 else 9
  }

  /** Where the k-th transaction of a block lies on disk. */
  function TxOffset(pindex: BlockIndex, vtx: seq<Tx>, k: nat): nat
    requires k <= |vtx|
  {
    if k == 0 then pindex.blockPos + 80 + CompactSize(|vtx|) else TxOffset(pindex, vtx, k - 1) + vtx[k - 1].size
  }

  function Places(pindex: BlockIndex, vtx: seq<Tx>): (at: seq<DiskTxPos>)
    ensures |at| == |vtx|
  {
    seq(|vtx|, k requires 0 <= k < |vtx| => Pos(pindex.file, pindex.blockPos, TxOffset(pindex, vtx, k)))
  }

  /** The newly created coins the block may contain beyond its fees; None if the reward checks reject it. */
  function Reward(env: Env, block: Block, height: nat, t: Tally): Option<int>
    requires block.vtx != []
  {
    if block.IsProofOfStake() then
      var age := env.coinAge(block.vtx[1]);
      if age.None? then None
      else
        var calculated := ProofOfStakeReward(age.value, t.fees, env.bestHeight, env.bestSupply);
        if t.stake > calculated then None else Some(calculated - t.fees)
    else
      var calculated := ExpectedCoinbase(height, t.fees, env.bestSupply);
      if calculated > t.coinbase then None else Some(calculated - t.fees)
  }

  ghost predicate AcceptBlock(env: Env, db: Index, disk: Disk, block: Block, pindex: BlockIndex) {
    CheckBlock(env, block) &&
    var run := RunTxs(env, db, disk, block.vtx, Places(pindex, block.vtx), |block.vtx|);
    && run.Some?
    && Reward(env, block, pindex.height, run.value).Some?
    && run.value.valueIn + Reward(env, block, pindex.height, run.value).value >= run.value.valueOut
  }

  /** The duplicate-id rule of BIP 30: an id may be reused only once its outputs are all spent. */
  method MayOverwrite(db: TxDb, h: Hash) returns (ok: bool)
    ensures ok <==> FullySpent(db.View().txs, h)
  {
    var overwritten := db.ReadTxIndex(h);
    if overwritten.Some? {
      var spent := overwritten.value.spent;
      for n := 0 to |spent|
        invariant forall m :: 0 <= m < n ==> spent[m] != Null
      {
        if spent[n] == Null {
          return false;
        }
      }
    }
    ok := true;
  }

  method ConnectSpender(db: TxDb, env: Env, disk: Disk, tx: Tx, pos: DiskTxPos, queued: Index, t: Tally)
    returns (ok: bool, queued': Index, t': Tally)
    requires pos.Pos? && !tx.IsCoinBase()
    ensures ok <==> AcceptSpender(env, db.View().txs + queued, disk, tx, t)
    ensures ok ==> db.View().txs + queued' == Mark(db.View().txs + queued, tx.vin, pos)
    ensures ok ==> t' == TallyTx(env, db.View().txs + queued, disk, tx, t)
  {
    hide ConnectInputsOk, Mark;
    ok, queued', t' := false, queued, t;
    var prevs := FetchInputs(db, env, disk, queued, tx);
    if prevs.None? {
      return;
    }
    t' := t'.(sigOps := t'.sigOps + tx.sigOps + env.p2shSigOps(tx));
    if t'.sigOps > env.maxSigOps {
      return;
    }
    var valueIn := SumPrevs(env, prevs.value, tx.vin, db.View().txs + queued, disk);
    var valueOut := SumOut(tx.vout);
    if t'.valueIn + valueIn < 0 {
      return;
    }
    t' := t'.(valueIn := t'.valueIn + valueIn);
    if t'.valueOut + valueOut < 0 {
      return;
    }
    t' := t'.(valueOut := t'.valueOut + valueOut);
    if !tx.IsCoinStake() {
      t' := t'.(fees := t'.fees + valueIn - valueOut);
    }
    if tx.IsCoinStake() {
      t' := t'.(stake := valueOut - valueIn);
    }
    ok, queued' := ConnectInputs(env, prevs.value, queued, tx, pos, db.View().txs, disk);
  }

  /** One round of ConnectBlock's loop. */
  method ConnectOne(db: TxDb, env: Env, disk: Disk, tx: Tx, pos: DiskTxPos, queued: Index, t: Tally)
    returns (ok: bool, queued': Index, t': Tally)
    requires pos.Pos?
    ensures ok <==> AcceptTx(env, db.View().txs, db.View().txs + queued, disk, tx, t)
    ensures ok ==> db.View().txs + queued' == ConnectTx(db.View().txs + queued, tx, pos)
    ensures ok ==> t' == TallyTx(env, db.View().txs + queued, disk, tx, t)
  {
    queued', t' := queued, t;
    ok := MayOverwrite(db, tx.hash);
    if !ok || t.sigOps + tx.sigOps > env.maxSigOps {
      return false, queued, t;
    }
    if tx.IsCoinBase() {
      t' := t.(coinbase := SumOut(tx.vout), valueOut := t.valueOut + SumOut(tx.vout), sigOps := t.sigOps + tx.sigOps);
    } else {
      ok, queued', t' := ConnectSpender(db, env, disk, tx, pos, queued, t);
      if !ok {
        return;
      }
    }
    ghost var before := queued';
    queued' := queued'[tx.hash := FreshIndex(pos, |tx.vout|)];
    assert db.View().txs + queued' == (db.View().txs + before)[tx.hash := FreshIndex(pos, |tx.vout|)];
  }

  /** GetValueMapIn. */
  method SumPrevs(env: Env, prevs: Prevs, vin: seq<OutPoint>, ghost ix: Index, ghost disk: Disk) returns (sum: int)
    requires Fetchable(env, ix, disk, vin)
    requires forall o :: o in vin ==> PrevMatches(prevs, ix, disk, o.hash)
    ensures sum == ValueIn(ix, disk, vin)
  {
    sum := 0;
    for i := 0 to |vin|
      invariant sum == ValueIn(ix, disk, vin[..i])
    {
      var o := vin[i];
      assert PrevMatches(prevs, ix, disk, o.hash) && FetchOk(env, ix, disk, o);
      assert vin[..i + 1][..i] == vin[..i];
      sum := sum + prevs[o.hash].1.vout[o.n].value;
    }
    assert vin[..|vin|] == vin;
  }
}
