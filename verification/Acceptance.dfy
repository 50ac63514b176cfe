/** What it takes for a block to be accepted, said transaction by transaction and without running sums. */
module Acceptance {
  import opened Primitives
  import opened LedgerSpec
  import opened LedgerMoney
  import opened Ledger
  import opened LedgerBlocks

  /** An amount of money that may occur. */
  predicate IsAmount(value: int) {
    0 <= value <= 50_000_000_000 * 100_000_000
  }

  /** The two kinds of transaction that create coins; none is of both. */
  lemma KindsOf(tx: Tx)
    ensures tx.IsCoinBase() <==> |tx.vin| == 1 && tx.vin[0] == OutPoint(0, 0xFFFF_FFFF) && |tx.vout| >= 1
    ensures tx.IsCoinStake() <==> |tx.vin| >= 1 && tx.vin[0] != OutPoint(0, 0xFFFF_FFFF) && |tx.vout| >= 2 && tx.vout[0] == TxOut(0, "")
    ensures !(tx.IsCoinBase() && tx.IsCoinStake())
  {
  }

  /** The transaction an input spends from, as far as the index leads to one. */
  ghost predicate Leads(ix: Index, disk: Disk, o: OutPoint) {
    o.hash in ix && ix[o.hash].pos in disk && o.n < |disk[ix[o.hash].pos].vout| && o.n < |ix[o.hash].spent|
  }

  /** The j-th input names an unspent output it may spend: known, mature, not younger than the spender, a proper amount,
      not the marker of a coinstake, and signed for. */
  ghost predicate InputFine(env: Env, ix: Index, disk: Disk, tx: Tx, j: nat)
    requires j < |tx.vin|
  {
    var o := tx.vin[j];
    && Leads(ix, disk, o)
    && var entry := ix[o.hash];
       var prev := disk[entry.pos];
       var out := prev.vout[o.n];
       && entry.spent[o.n] == Null
       && (entry.pos == Pos(1, 1, 1) ==> o.hash in env.pool)
       && (prev.IsCoinBase() || prev.IsCoinStake() ==> entry.pos == Null || (entry.pos.file, entry.pos.blockPos) !in env.recent)
       && prev.time <= tx.time
       && IsAmount(out.value)
       && (env.protocolV3(tx.time) ==> out.value != 0 || out.script != "")
       && env.sigOk(prev, tx, j)
  }

  /** A transaction with inputs: every input is fine, none is named twice, they come to an amount, and unless it is a
      coinstake it pays out no more than it takes in. */
  ghost predicate SpenderFine(env: Env, ix: Index, disk: Disk, tx: Tx) {
    && (forall j :: 0 <= j < |tx.vin| ==> InputFine(env, ix, disk, tx, j))
    && (forall j, k :: 0 <= j < k < |tx.vin| ==> tx.vin[j] != tx.vin[k])
    && IsAmount(ValueIn(ix, disk, tx.vin))
    && (!tx.IsCoinStake() ==> SumOut(tx.vout) <= ValueIn(ix, disk, tx.vin))
  }

  /** The form of a transaction: it has inputs and outputs, every output and their sum is an amount, only a coinbase or
      coinstake has an empty output, and only a coinbase has a null input. */
  ghost predicate FormFine(tx: Tx) {
    && tx.vin != [] && tx.vout != [] && IsAmount(SumOut(tx.vout))
    && (forall i :: 0 <= i < |tx.vout| ==> IsAmount(tx.vout[i].value))
    && (forall i :: 0 <= i < |tx.vout| && tx.vout[i].value == 0 && tx.vout[i].script == "" ==> tx.IsCoinBase() || tx.IsCoinStake())
    && (forall j, k :: 0 <= j < k < |tx.vin| ==> tx.vin[j] != tx.vin[k])
    && (!tx.IsCoinBase() ==> forall j :: 0 <= j < |tx.vin| ==> tx.vin[j].hash != 0 || tx.vin[j].n != 0xFFFF_FFFF)
  }

  /** The form of a block: the coinbase comes first, a coinstake can only be second, and then the coinbase is empty. */
  ghost predicate BlockFormFine(env: Env, block: Block) {
    var vtx := block.vtx;
    && vtx != [] && env.checkBlock(block)
    && (forall i :: 0 <= i < |vtx| ==> (vtx[i].IsCoinBase() <==> i == 0))
    && (forall i :: 0 <= i < |vtx| && vtx[i].IsCoinStake() ==> i == 1)
    && (|vtx| > 1 && vtx[1].IsCoinStake() ==> |vtx[0].vout| == 1 && vtx[0].vout[0].value == 0 && vtx[0].vout[0].script == "")
    && (forall i :: 0 <= i < |vtx| ==> FormFine(vtx[i]) && vtx[i].time <= block.time)
    && (forall i, j :: 0 <= i < j < |vtx| ==> vtx[i].hash != vtx[j].hash)
  }

  /** Signature operations of the first k transactions. */
  function SigOps(env: Env, vtx: seq<Tx>, k: nat): nat
    requires k <= |vtx|
  {
    if k == 0 then 0
    else SigOps(env, vtx, k - 1) + vtx[k - 1].sigOps + if vtx[k - 1].IsCoinBase() then 0 else env.p2shSigOps(vtx[k - 1])
  }

  /** What the ordinary transactions among the first k leave over. */
  ghost function FeesLeft(db: Index, disk: Disk, vtx: seq<Tx>, at: seq<DiskTxPos>, k: nat): int
    requires k <= |vtx| == |at|
  {
    if k == 0 then 0
    else
      var tx := vtx[k - 1];
      FeesLeft(db, disk, vtx, at, k - 1) +
      if tx.IsCoinBase() || tx.IsCoinStake() then 0 else ValueIn(ConnectTxs(db, vtx, at, k - 1), disk, tx.vin) - SumOut(tx.vout)
  }

  /** The reward: a coinbase pays exactly what is expected; a coinstake creates at most its reward. */
  ghost predicate RewardFine(env: Env, db: Index, disk: Disk, block: Block, at: seq<DiskTxPos>, height: nat)
    requires block.vtx != [] && |block.vtx| == |at|
  {
    var fees := FeesLeft(db, disk, block.vtx, at, |block.vtx|);
    if |block.vtx| > 1 && block.vtx[1].IsCoinStake() then
      && env.coinAge(block.vtx[1]).Some?
      && SumOut(block.vtx[1].vout) - ValueIn(ConnectTxs(db, block.vtx, at, 1), disk, block.vtx[1].vin)
         <= ProofOfStakeReward(env.coinAge(block.vtx[1]).value, fees, env.bestHeight, env.bestSupply)
    else SumOut(block.vtx[0].vout) == ExpectedCoinbase(height, fees, env.bestSupply)
  }

  /** No id of the block stands for a transaction that still has unspent outputs. */
  ghost predicate IdsFree(db: Index, vtx: seq<Tx>) {
    forall i, n :: 0 <= i < |vtx| && vtx[i].hash in db && 0 <= n < |db[vtx[i].hash].spent| ==> db[vtx[i].hash].spent[n] != Null
  }

  /** A valid block, without order of checks and running sums. */
  ghost predicate ValidBlock(env: Env, db: Index, disk: Disk, block: Block, pindex: BlockIndex) {
    var vtx, at := block.vtx, Places(pindex, block.vtx);
    && BlockFormFine(env, block) && IdsFree(db, vtx) && SigOps(env, vtx, |vtx|) <= env.maxSigOps
    && (forall i :: 1 <= i < |vtx| ==> SpenderFine(env, ConnectTxs(db, vtx, at, i), disk, vtx[i]))
    && RewardFine(env, db, disk, block, at, pindex.height)
  }

  // ----- amounts

  lemma {:induction false} PartOfSum(outs: seq<TxOut>, k: nat)
    requires k <= |outs| && forall i :: 0 <= i < |outs| ==> outs[i].value >= 0
    ensures 0 <= SumOut(outs[..k]) <= SumOut(outs)
    decreases |outs| - k
  {
    if k < |outs| {
      PartOfSum(outs, k + 1);
      assert outs[..k + 1][..k] == outs[..k];
      NotNegative(outs[..k]);
    } else {
      assert outs[..k] == outs;
      NotNegative(outs);
    }
  }

  lemma {:induction false} NotNegative(outs: seq<TxOut>)
    requires forall i :: 0 <= i < |outs| ==> outs[i].value >= 0
    ensures SumOut(outs) >= 0
  {
    if outs != [] {
      NotNegative(outs[..|outs| - 1]);
    }
  }

  lemma {:induction false} InputsNotNegative(ix: Index, disk: Disk, vin: seq<OutPoint>)
    requires forall i :: 0 <= i < |vin| ==> Leads(ix, disk, vin[i]) && disk[ix[vin[i].hash].pos].vout[vin[i].n].value >= 0
    ensures ValueIn(ix, disk, vin) >= 0
  {
    if vin != [] {
      InputsNotNegative(ix, disk, vin[..|vin| - 1]);
    }
  }

  lemma {:induction false} PartOfInputs(ix: Index, disk: Disk, vin: seq<OutPoint>, k: nat)
    requires k <= |vin|
    requires forall i :: 0 <= i < |vin| ==> Leads(ix, disk, vin[i]) && disk[ix[vin[i].hash].pos].vout[vin[i].n].value >= 0
    ensures 0 <= ValueIn(ix, disk, vin[..k]) <= ValueIn(ix, disk, vin)
    decreases |vin| - k
  {
    InputsNotNegative(ix, disk, vin[..k]);
    if k < |vin| {
      PartOfInputs(ix, disk, vin, k + 1);
      assert vin[..k + 1][..k] == vin[..k];
    } else {
      assert vin[..k] == vin;
    }
  }

  // ----- the form

  lemma NullMeans(o: OutPoint)
    ensures o.IsNull() <==> o.hash == 0 && o.n == 0xFFFF_FFFF
  {
  }

  lemma FormMeans(tx: Tx)
    ensures CheckTransaction(tx) <==> FormFine(tx)
  {
    hide CheckTransaction, FormFine;
    if CheckTransaction(tx) {
      CheckedIsFine(tx);
    }
    if FormFine(tx) {
      FineIsChecked(tx);
    }
  }

  lemma OutputMeans(tx: Tx, i: nat)
    requires i < |tx.vout|
    ensures OutputOk(tx, i) <==>
      && (tx.vout[i].value == 0 && tx.vout[i].script == "" ==> tx.IsCoinBase() || tx.IsCoinStake())
      && IsAmount(tx.vout[i].value) && IsAmount(SumOut(tx.vout[..i + 1]))
  {
    hide SumOut;
  }

  lemma CheckedIsFine(tx: Tx)
    requires CheckTransaction(tx)
    ensures FormFine(tx)
  {
    hide SumOut, OutputOk;
    var outs := tx.vout;
    assert OutputOk(tx, |outs| - 1);
    OutputMeans(tx, |outs| - 1);
    assert outs[..|outs| - 1 + 1] == outs;
    forall i | 0 <= i < |outs|
      ensures IsAmount(outs[i].value)
      ensures outs[i].value == 0 && outs[i].script == "" ==> tx.IsCoinBase() || tx.IsCoinStake()
    {
      OutputMeans(tx, i);
    }
    forall j | 0 <= j < |tx.vin| && !tx.IsCoinBase()
      ensures tx.vin[j].hash != 0 || tx.vin[j].n != 0xFFFF_FFFF
    {
      NullMeans(tx.vin[j]);
      assert tx.vin[j] in tx.vin;
    }
  }

  lemma FineIsChecked(tx: Tx)
    requires FormFine(tx)
    ensures CheckTransaction(tx)
  {
    hide SumOut, OutputOk;
    var outs := tx.vout;
    forall i | 0 <= i < |outs|
      ensures OutputOk(tx, i)
    {
      assert IsAmount(outs[i].value);
      PartOfSum(outs, i + 1);
      OutputMeans(tx, i);
    }
    forall o | o in tx.vin && !tx.IsCoinBase()
      ensures !o.IsNull()
    {
      NullMeans(o);
    }
    assert Distinct(tx.vin);
  }

  lemma BlockFormMeans(env: Env, block: Block)
    ensures CheckBlock(env, block) <==> BlockFormFine(env, block)
  {
    hide CheckTransaction, FormFine;
    forall i | 0 <= i < |block.vtx|
      ensures CheckTransaction(block.vtx[i]) <==> FormFine(block.vtx[i])
    {
      FormMeans(block.vtx[i]);
    }
  }

  // ----- one transaction

  lemma InputMeans(env: Env, ix: Index, disk: Disk, tx: Tx, j: nat)
    requires j < |tx.vin|
    ensures InputFine(env, ix, disk, tx, j) ==>
      FetchOk(env, ix, disk, tx.vin[j]) && IsUnspent(ix, tx.vin[j]) && SignedOk(env, ix, disk, tx, j)
    ensures InputFine(env, ix, disk, tx, j) && IsAmount(ValueIn(ix, disk, tx.vin[..j + 1])) ==> CheapOk(env, ix, disk, tx, j)
    ensures FetchOk(env, ix, disk, tx.vin[j]) && IsUnspent(ix, tx.vin[j]) && SignedOk(env, ix, disk, tx, j) && CheapOk(env, ix, disk, tx, j) ==>
      InputFine(env, ix, disk, tx, j) && IsAmount(ValueIn(ix, disk, tx.vin[..j + 1]))
  {
    hide ValueIn;
  }

  lemma FineConnects(env: Env, ix: Index, disk: Disk, tx: Tx)
    requires SpenderFine(env, ix, disk, tx) && FormFine(tx)
    ensures Fetchable(env, ix, disk, tx.vin) && ConnectInputsOk(env, ix, disk, tx)
  {
    hide ValueIn, SumOut, FetchOk, CheapOk, SignedOk, IsUnspent;
    forall j | 0 <= j < |tx.vin|
      ensures Leads(ix, disk, tx.vin[j]) && disk[ix[tx.vin[j].hash].pos].vout[tx.vin[j].n].value >= 0
    {
      assert InputFine(env, ix, disk, tx, j);
    }
    forall j | 0 <= j < |tx.vin|
      ensures FetchOk(env, ix, disk, tx.vin[j]) && IsUnspent(ix, tx.vin[j]) && SignedOk(env, ix, disk, tx, j) && CheapOk(env, ix, disk, tx, j)
    {
      PartOfInputs(ix, disk, tx.vin, j + 1);
      InputMeans(env, ix, disk, tx, j);
    }
    PartOfSum(tx.vout, |tx.vout|);
    assert tx.vout[..|tx.vout|] == tx.vout;
  }

  lemma ConnectsFine(env: Env, ix: Index, disk: Disk, tx: Tx)
    requires Fetchable(env, ix, disk, tx.vin) && ConnectInputsOk(env, ix, disk, tx) && tx.vin != []
    ensures SpenderFine(env, ix, disk, tx)
  {
    hide ValueIn, SumOut, FetchOk, CheapOk, SignedOk, IsUnspent, InputFine;
    forall j | 0 <= j < |tx.vin|
      ensures InputFine(env, ix, disk, tx, j) && IsAmount(ValueIn(ix, disk, tx.vin[..j + 1]))
    {
      assert tx.vin[j] in tx.vin;
      InputMeans(env, ix, disk, tx, j);
    }
    assert tx.vin[..|tx.vin| - 1 + 1] == tx.vin;
    assert InputFine(env, ix, disk, tx, |tx.vin| - 1);
  }

  // ----- the run

  /** The running sums of an accepted run are the plain sums. */
  ghost predicate TallyIs(env: Env, db: Index, disk: Disk, vtx: seq<Tx>, at: seq<DiskTxPos>, k: nat, t: Tally)
    requires k <= |vtx| == |at|
  {
    && t.fees == FeesLeft(db, disk, vtx, at, k) >= 0 && t.sigOps == SigOps(env, vtx, k) && t.valueIn >= 0 && t.valueOut >= 0
    && (k >= 1 ==> t.coinbase == SumOut(vtx[0].vout))
    && (k >= 1 ==> t.valueOut - t.valueIn == t.coinbase - t.fees + t.stake)
    && (k >= 2 && vtx[1].IsCoinStake() ==> t.stake == SumOut(vtx[1].vout) - ValueIn(ConnectTxs(db, vtx, at, 1), disk, vtx[1].vin))
    && (k < 2 || !vtx[1].IsCoinStake() ==> t.stake == 0)
  }

  ghost predicate FineUpTo(env: Env, db: Index, disk: Disk, vtx: seq<Tx>, at: seq<DiskTxPos>, k: nat)
    requires k <= |vtx| == |at|
  {
    && SigOps(env, vtx, k) <= env.maxSigOps
    && (forall i :: 0 <= i < k ==> FullySpent(db, vtx[i].hash))
    && (forall i :: 1 <= i < k ==> SpenderFine(env, ConnectTxs(db, vtx, at, i), disk, vtx[i]))
  }

  lemma {:induction false} RunMeans(env: Env, db: Index, disk: Disk, block: Block, at: seq<DiskTxPos>, k: nat)
    requires BlockFormFine(env, block) && k <= |block.vtx| == |at|
    ensures var run := RunTxs(env, db, disk, block.vtx, at, k);
            && (run.Some? <==> FineUpTo(env, db, disk, block.vtx, at, k))
            && (run.Some? ==> TallyIs(env, db, disk, block.vtx, at, k, run.value))
  {
    hide BlockFormFine, AcceptTx, TallyTx, FullySpent, SpenderFine, ConnectTxs, TallyIs;
    if k == 0 {
      NothingRun(env, db, disk, block.vtx, at);
    } else {
      RunMeans(env, db, disk, block, at, k - 1);
      var before := RunTxs(env, db, disk, block.vtx, at, k - 1);
      if before.Some? {
        StepMeans(env, db, disk, block, at, k, before.value);
      }
    }
  }

  lemma NothingRun(env: Env, db: Index, disk: Disk, vtx: seq<Tx>, at: seq<DiskTxPos>)
    requires |vtx| == |at|
    ensures TallyIs(env, db, disk, vtx, at, 0, NO_TALLY)
  {
  }

  lemma StepMeans(env: Env, db: Index, disk: Disk, block: Block, at: seq<DiskTxPos>, k: nat, t: Tally)
    requires BlockFormFine(env, block) && 0 < k <= |block.vtx| == |at|
    requires TallyIs(env, db, disk, block.vtx, at, k - 1, t) && (k == 1 ==> t == NO_TALLY)
    ensures var ix, tx := ConnectTxs(db, block.vtx, at, k - 1), block.vtx[k - 1];
            && (AcceptTx(env, db, ix, disk, tx, t) <==>
                  && FullySpent(db, tx.hash) && SigOps(env, block.vtx, k) <= env.maxSigOps
                  && (k == 1 || SpenderFine(env, ix, disk, tx)))
            && (AcceptTx(env, db, ix, disk, tx, t) ==> TallyIs(env, db, disk, block.vtx, at, k, TallyTx(env, ix, disk, tx, t)))
  {
    hide FullySpent, ConnectTxs, ConnectInputsOk, Fetchable, ValueIn, SumOut, TallyIs, FeesLeft, FormFine, SpenderFine, TallyTx;
    var ix, tx := ConnectTxs(db, block.vtx, at, k - 1), block.vtx[k - 1];
    assert FormFine(tx) && (tx.IsCoinBase() <==> k == 1) && (tx.IsCoinStake() ==> k == 2);
    FormFacts(tx);
    TallyFacts(env, db, disk, block.vtx, at, k - 1, t);
    if k == 1 {
      TallyCoinbase(env, db, disk, block, at, t);
    } else {
      if SpenderFine(env, ix, disk, tx) {
        FineConnects(env, ix, disk, tx);
        SpenderFacts(env, ix, disk, tx);
        TallySpender(env, db, disk, block, at, k, t);
      }
      if Fetchable(env, ix, disk, tx.vin) && ConnectInputsOk(env, ix, disk, tx) {
        ConnectsFine(env, ix, disk, tx);
      }
    }
  }

  lemma FormFacts(tx: Tx)
    requires FormFine(tx)
    ensures tx.vin != [] && IsAmount(SumOut(tx.vout))
  {
  }

  lemma SpenderFacts(env: Env, ix: Index, disk: Disk, tx: Tx)
    requires SpenderFine(env, ix, disk, tx)
    ensures IsAmount(ValueIn(ix, disk, tx.vin))
  {
  }

  lemma TallyFacts(env: Env, db: Index, disk: Disk, vtx: seq<Tx>, at: seq<DiskTxPos>, k: nat, t: Tally)
    requires k <= |vtx| == |at| && TallyIs(env, db, disk, vtx, at, k, t)
    ensures t.sigOps == SigOps(env, vtx, k) && t.valueIn >= 0 && t.valueOut >= 0
  {
  }

  lemma TallyCoinbase(env: Env, db: Index, disk: Disk, block: Block, at: seq<DiskTxPos>, t: Tally)
    requires BlockFormFine(env, block) && |block.vtx| == |at| && TallyIs(env, db, disk, block.vtx, at, 0, t) && t == NO_TALLY
    ensures TallyIs(env, db, disk, block.vtx, at, 1, TallyTx(env, ConnectTxs(db, block.vtx, at, 0), disk, block.vtx[0], t))
  {
    hide ConnectTxs, ValueIn, SumOut;
    FormFacts(block.vtx[0]);
  }

  lemma TallySpender(env: Env, db: Index, disk: Disk, block: Block, at: seq<DiskTxPos>, k: nat, t: Tally)
    requires BlockFormFine(env, block) && 1 < k <= |block.vtx| == |at| && TallyIs(env, db, disk, block.vtx, at, k - 1, t)
    requires SpenderFine(env, ConnectTxs(db, block.vtx, at, k - 1), disk, block.vtx[k - 1])
    ensures TallyIs(env, db, disk, block.vtx, at, k, TallyTx(env, ConnectTxs(db, block.vtx, at, k - 1), disk, block.vtx[k - 1], t))
  {
    hide ConnectTxs, ValueIn, SumOut, InputFine;
    var tx := block.vtx[k - 1];
    assert FormFine(tx) && !tx.IsCoinBase() && (tx.IsCoinStake() ==> k == 2);
    FormFacts(tx);
  }

  /** ConnectBlock's checks, in whatever order and through whatever sums, accept exactly the valid blocks. In particular its
      two overflow checks and, for a stake, the balance check never decide anything. */
  lemma AcceptsExactlyValid(env: Env, db: Index, disk: Disk, block: Block, pindex: BlockIndex)
    ensures AcceptBlock(env, db, disk, block, pindex) <==> ValidBlock(env, db, disk, block, pindex)
  {
    hide BlockFormFine, RunTxs, SpenderFine, FullySpent, ConnectTxs, TallyIs;
    BlockFormMeans(env, block);
    if BlockFormFine(env, block) {
      var vtx, at := block.vtx, Places(pindex, block.vtx);
      RunMeans(env, db, disk, block, at, |vtx|);
      FreeIds(db, vtx);
      var run := RunTxs(env, db, disk, vtx, at, |vtx|);
      if run.Some? {
        RewardMeans(env, db, disk, block, at, pindex.height, run.value);
      }
    }
  }

  lemma FreeIds(db: Index, vtx: seq<Tx>)
    ensures IdsFree(db, vtx) <==> forall i :: 0 <= i < |vtx| ==> FullySpent(db, vtx[i].hash)
  {
  }

  lemma RewardMeans(env: Env, db: Index, disk: Disk, block: Block, at: seq<DiskTxPos>, height: nat, t: Tally)
    requires BlockFormFine(env, block) && |block.vtx| == |at| && TallyIs(env, db, disk, block.vtx, at, |block.vtx|, t)
    ensures Reward(env, block, height, t).Some? && t.valueIn + Reward(env, block, height, t).value >= t.valueOut <==>
            RewardFine(env, db, disk, block, at, height)
  {
    hide ConnectTxs, FeesLeft, SigOps, ExpectedCoinbase, ProofOfStakeReward, ValueIn;
    if block.IsProofOfStake() {
      EmptyPaysNothing(block.vtx[0].vout);
    }
  }

  lemma EmptyPaysNothing(outs: seq<TxOut>)
    requires |outs| == 1 && outs[0].value == 0
    ensures SumOut(outs) == 0
  {
    assert outs[..0] == [];
  }

  /** What holds of every transaction of an accepted block that is neither coinbase nor coinstake: it leaves a fee, and no
      more than an amount; together these are the block's fees. */
  lemma NothingOutOfNothing(env: Env, db: Index, disk: Disk, block: Block, pindex: BlockIndex, i: nat)
    requires AcceptBlock(env, db, disk, block, pindex) && i < |block.vtx|
    ensures var at := Places(pindex, block.vtx);
            var run := RunTxs(env, db, disk, block.vtx, at, |block.vtx|);
            var tx := block.vtx[i];
            && (!tx.IsCoinBase() && !tx.IsCoinStake() ==>
                  IsAmount(ValueIn(ConnectTxs(db, block.vtx, at, i), disk, tx.vin) - SumOut(tx.vout)))
            && run.Some? && run.value.fees == FeesLeft(db, disk, block.vtx, at, |block.vtx|) >= 0
  {
    hide RunTxs, ConnectTxs, FeesLeft, ValueIn, SumOut, InputFine, RewardFine, SigOps;
    AcceptsExactlyValid(env, db, disk, block, pindex);
    RunMeans(env, db, disk, block, Places(pindex, block.vtx), |block.vtx|);
    assert FormFine(block.vtx[i]);
  }

  /** The recorded mint of an accepted block is what its coinbase pays or its coinstake creates, and the supply grows by that
      less the fees. */
  lemma MintIs(env: Env, db: Index, disk: Disk, block: Block, pindex: BlockIndex, state: BlockState, pprev: Option<BlockRecord>)
    requires AcceptBlock(env, db, disk, block, pindex)
    ensures var at := Places(pindex, block.vtx);
            var t := RunTxs(env, db, disk, block.vtx, at, |block.vtx|).value;
            var after := Credited(state, pprev, t);
            && after.mint == (if |block.vtx| > 1 && block.vtx[1].IsCoinStake()
                              then SumOut(block.vtx[1].vout) - ValueIn(ConnectTxs(db, block.vtx, at, 1), disk, block.vtx[1].vin)
                              else SumOut(block.vtx[0].vout))
            && after.supply == (if pprev.Some? then pprev.value.state.supply else 0) + after.mint - FeesLeft(db, disk, block.vtx, at, |block.vtx|)
            && after.next == state.next
  {
    hide RunTxs, ConnectTxs, FeesLeft, ValueIn, SumOut, InputFine, RewardFine, SigOps, SpenderFine, FormFine;
    AcceptsExactlyValid(env, db, disk, block, pindex);
    RunMeans(env, db, disk, block, Places(pindex, block.vtx), |block.vtx|);
    if |block.vtx| > 1 && block.vtx[1].IsCoinStake() {
      EmptyPaysNothing(block.vtx[0].vout);
    }
  }
}
