/** A proof-of-work block the node assembles goes through its own ConnectBlock. */
module MinedBlock {
  import opened Primitives
  import opened LedgerSpec
  import opened LedgerMoney
  import opened Ledger
  import opened Miner
  import opened NewBlock

  /** The two entries lie at the same place, and the same outputs are spent. */
  ghost predicate Alike(a: TxIndex, b: TxIndex) {
    a.pos == b.pos && |a.spent| == |b.spent| && forall n :: 0 <= n < |a.spent| ==> (a.spent[n] == Null <==> b.spent[n] == Null)
  }

  ghost predicate AlikeAt(ix: Index, ix': Index, h: Hash) {
    h in ix && h in ix' && Alike(ix[h], ix'[h])
  }

  /** What assembling and connecting have in common, and where they differ: the block now has a place on disk, which
      is new, and may itself count as recent. */
  ghost predicate SameRules(w: World, env: Env, disk: Disk, pindex: BlockIndex) {
    && env.protocolV3 == w.env.protocolV3
    && env.p2shSigOps == w.env.p2shSigOps && env.maxSigOps == w.env.maxSigOps
    && env.recent <= w.env.recent + {(pindex.file, pindex.blockPos)}
    && (forall p :: p in w.disk ==> p in disk && disk[p] == w.disk[p])
    && (forall h :: h in w.db && w.db[h].pos.Pos? ==> (w.db[h].pos.file, w.db[h].pos.blockPos) != (pindex.file, pindex.blockPos))
    && (forall h :: h in w.db ==> w.db[h].pos != NOT_ON_DISK)
  }

  /** Every signature of the transaction passes the rules for connecting, which may be stricter than the miner's. */
  ghost predicate SignedTx(w: World, env: Env, tx: Tx) {
    forall j :: 0 <= j < |tx.vin| ==> SignedInput(w, env, tx, j)
  }

  predicate SignedInput(w: World, env: Env, tx: Tx, j: nat)
    requires j < |tx.vin|
  {
    var h := tx.vin[j].hash;
    h in w.db && w.db[h].pos in w.disk && env.sigOk(w.disk[w.db[h].pos], tx, j)
  }

  /** No transaction of the block spends another one; so it is if nothing can be read at the placeholder. */
  ghost predicate NoChildren(w: World, vtx: seq<Tx>) {
    forall i :: 0 <= i < |vtx| ==> Awaited(w, vtx[i].vin) == {}
  }

  lemma NoChildrenUnreadable(w: World, vtx: seq<Tx>)
    requires WellOrdered(w, vtx) && NOT_ON_DISK !in w.disk
    ensures NoChildren(w, vtx)
  {
    hide WellOrdered, Awaited;
    forall i | 0 <= i < |vtx| ensures Awaited(w, vtx[i].vin) == {} { ChildrenAreLeftOut(w, vtx, i); }
  }

  /** No id of the block is on the chain or repeated, and no output total is negative. */
  ghost predicate FreshBlock(w: World, coinbase: Tx, vtx: seq<Tx>) {
    && coinbase.IsCoinBase() && coinbase.hash !in w.db && coinbase.sigOps <= 100 && SumOut(coinbase.vout) >= 0
    && coinbase.sigOps <= w.env.maxSigOps
    && (forall i :: 0 <= i < |vtx| ==> vtx[i].hash !in w.db && vtx[i].hash != coinbase.hash && SumOut(vtx[i].vout) >= 0)
  }

  // ----- the two indexes stay alike on the chain's own entries

  lemma MarkAlike(ix: Index, ix': Index, vin: seq<OutPoint>, mark: DiskTxPos, mark': DiskTxPos, h: Hash)
    requires AlikeAt(ix, ix', h) && mark != Null && mark' != Null
    ensures AlikeAt(Mark(ix, vin, mark), Mark(ix', vin, mark'), h)
  {
    MarkAt(ix, vin, mark, h);
    MarkAt(ix', vin, mark', h);
  }

  /** Connecting a transaction with a new id keeps them alike. */
  lemma ConnectAlike(ix: Index, ix': Index, tx: Tx, pos: DiskTxPos, pos': DiskTxPos, h: Hash)
    requires AlikeAt(ix, ix', h) && pos.Pos? && pos'.Pos? && !tx.IsCoinBase() && tx.hash != h
    ensures AlikeAt(ConnectTx(ix, tx, pos), ConnectTx(ix', tx, pos'), h)
  {
    MarkAlike(ix, ix', tx.vin, pos, pos', h);
  }

  // ----- acceptance carries over

  /** The input names a chain entry, in both indexes where the chain has it. */
  ghost predicate ChainEntry(w: World, ix: Index, ix': Index, h: Hash) {
    AlikeAt(ix, ix', h) && h in w.db && ix[h].pos == w.db[h].pos
  }

  ghost predicate FromChain(w: World, ix: Index, ix': Index, vin: seq<OutPoint>) {
    forall i :: 0 <= i < |vin| ==> ChainEntry(w, ix, ix', vin[i].hash)
  }

  /** An input from the chain is fetched alike. */
  lemma FetchAlike(w: World, env: Env, disk: Disk, pindex: BlockIndex, ix: Index, ix': Index, o: OutPoint)
    requires SameRules(w, env, disk, pindex) && ChainEntry(w, ix, ix', o.hash) && FetchOk(w.env, ix, w.disk, o)
    ensures FetchOk(env, ix', disk, o) && disk[ix'[o.hash].pos] == w.disk[w.db[o.hash].pos] == w.disk[ix[o.hash].pos]
    ensures OutValue(ix', disk, o) == OutValue(ix, w.disk, o)
    ensures IsUnspent(ix, o) <==> IsUnspent(ix', o)
  {
  }

  lemma {:induction false} ValueAlike(w: World, env: Env, disk: Disk, pindex: BlockIndex, ix: Index, ix': Index, vin: seq<OutPoint>)
    requires SameRules(w, env, disk, pindex) && Fetchable(w.env, ix, w.disk, vin) && FromChain(w, ix, ix', vin)
    ensures ValueIn(ix', disk, vin) == ValueIn(ix, w.disk, vin)
  {
    hide ChainEntry, SameRules;
    if vin != [] {
      var n := |vin| - 1;
      assert FetchOk(w.env, ix, w.disk, vin[n]) && ChainEntry(w, ix, ix', vin[n].hash);
      FetchAlike(w, env, disk, pindex, ix, ix', vin[n]);
      forall i | 0 <= i < n
        ensures FetchOk(w.env, ix, w.disk, vin[..n][i]) && ChainEntry(w, ix, ix', vin[..n][i].hash)
      {
        assert FetchOk(w.env, ix, w.disk, vin[i]) && ChainEntry(w, ix, ix', vin[i].hash);
      }
      ValueAlike(w, env, disk, pindex, ix, ix', vin[..n]);
    }
  }

  lemma CheapAlike(w: World, env: Env, disk: Disk, pindex: BlockIndex, ix: Index, ix': Index, tx: Tx, i: nat)
    requires SameRules(w, env, disk, pindex) && Fetchable(w.env, ix, w.disk, tx.vin) && FromChain(w, ix, ix', tx.vin) && i < |tx.vin|
    requires CheapOk(w.env, ix, w.disk, tx, i)
    ensures FetchOk(env, ix', disk, tx.vin[i]) && CheapOk(env, ix', disk, tx, i)
    ensures SignedOk(env, ix', disk, tx, i) <==> SignedInput(w, env, tx, i)
    ensures IsUnspent(ix, tx.vin[i]) <==> IsUnspent(ix', tx.vin[i])
  {
    hide ValueIn;
    var k := i + 1;
    var o := tx.vin[i];
    assert FetchOk(w.env, ix, w.disk, o) && ChainEntry(w, ix, ix', o.hash);
    FetchAlike(w, env, disk, pindex, ix, ix', o);
    forall j | 0 <= j < k
      ensures FetchOk(w.env, ix, w.disk, tx.vin[..k][j]) && ChainEntry(w, ix, ix', tx.vin[..k][j].hash)
    {
      assert FetchOk(w.env, ix, w.disk, tx.vin[j]) && ChainEntry(w, ix, ix', tx.vin[j].hash);
    }
    ValueAlike(w, env, disk, pindex, ix, ix', tx.vin[..k]);
  }

  /** What passed the miner's checks passes those of ConnectBlock, signatures apart. */
  lemma ConnectsAlike(w: World, env: Env, disk: Disk, pindex: BlockIndex, ix: Index, ix': Index, tx: Tx)
    requires SameRules(w, env, disk, pindex) && Fetchable(w.env, ix, w.disk, tx.vin) && FromChain(w, ix, ix', tx.vin)
    requires ConnectInputsOk(w.env, ix, w.disk, tx)
    ensures Fetchable(env, ix', disk, tx.vin) && (ConnectInputsOk(env, ix', disk, tx) <==> SignedTx(w, env, tx))
    ensures ValueIn(ix', disk, tx.vin) == ValueIn(ix, w.disk, tx.vin)
  {
    hide ValueIn, CheapOk, SignedOk, FetchOk, SameRules, ChainEntry, SignedInput;
    forall i | 0 <= i < |tx.vin|
      ensures FetchOk(env, ix', disk, tx.vin[i]) && CheapOk(env, ix', disk, tx, i) && IsUnspent(ix', tx.vin[i])
      ensures SignedOk(env, ix', disk, tx, i) <==> SignedInput(w, env, tx, i)
    {
      assert tx.vin[i] in tx.vin;
      CheapAlike(w, env, disk, pindex, ix, ix', tx, i);
    }
    ValueAlike(w, env, disk, pindex, ix, ix', tx.vin);
  }

  // ----- the transaction loop

  /** The sums ConnectBlock has after the coinbase and k more transactions, against those of the assembly. */
  ghost predicate SameSums(w: World, coinbase: Tx, vtx: seq<Tx>, t: Tally) {
    && t.fees == FeesOf(w.db, w.disk, vtx) && t.coinbase == SumOut(coinbase.vout)
    && t.fees == t.valueIn - t.valueOut + t.coinbase
    && t.sigOps <= SigOpsWith(w.env, vtx) && t.valueIn >= 0 && t.valueOut >= 0
  }

  ghost predicate InStep(w: World, ix: Index, vtx: seq<Tx>) {
    forall h :: h in w.db ==> AlikeAt(After(w.db, vtx), ix, h)
  }

  lemma CoinbaseFirst(w: World, env: Env, disk: Disk, pindex: BlockIndex, coinbase: Tx, vtx: seq<Tx>, at: seq<DiskTxPos>)
    requires SameRules(w, env, disk, pindex) && FreshBlock(w, coinbase, vtx) && |at| == |vtx| + 1 && at[0].Pos?
    ensures var all := [coinbase] + vtx;
            var t := RunTxs(env, w.db, disk, all, at, 1);
            && t.Some? && SameSums(w, coinbase, [], t.value)
            && InStep(w, ConnectTxs(w.db, all, at, 1), [])
  {
    var all := [coinbase] + vtx;
    assert all[0] == coinbase;
    assert ConnectTxs(w.db, all, at, 0) == w.db;
    assert RunTxs(env, w.db, disk, all, at, 0) == Some(NO_TALLY);
    assert AcceptTx(env, w.db, w.db, disk, coinbase, NO_TALLY);
  }

  lemma NextIsAccepted(w: World, env: Env, disk: Disk, pindex: BlockIndex, coinbase: Tx, vtx: seq<Tx>, k: nat, ix: Index, t: Tally)
    requires SameRules(w, env, disk, pindex) && FreshBlock(w, coinbase, vtx) && WellOrdered(w, vtx) && NoChildren(w, vtx) && k < |vtx|
    requires SameSums(w, coinbase, vtx[..k], t) && InStep(w, ix, vtx[..k])
    ensures AcceptTx(env, w.db, ix, disk, vtx[k], t) <==> SignedTx(w, env, vtx[k])
    ensures SameSums(w, coinbase, vtx[..k + 1], TallyTx(env, ix, disk, vtx[k], t))
  {
    hide ConnectInputsOk, After, FeeRateOf, Awaited, Fetchable, SameRules, SumOut, ValueIn, SignedTx;
    var before, tx := vtx[..k], vtx[k];
    var old' := After(w.db, before);
    RulesFacts(w, env, disk, pindex);
    assert Chosen(w, vtx, k);
    ChainInputs(w, vtx, k, ix);
    ConnectsAlike(w, env, disk, pindex, old', ix, tx);
    ValueIsMoney(w.env, old', w.disk, tx);
    assert vtx[..k + 1][..k] == before;
  }

  lemma RulesFacts(w: World, env: Env, disk: Disk, pindex: BlockIndex)
    requires SameRules(w, env, disk, pindex)
    ensures env.p2shSigOps == w.env.p2shSigOps && env.maxSigOps == w.env.maxSigOps
  {
  }

  lemma ValueIsMoney(env: Env, ix: Index, disk: Disk, tx: Tx)
    requires Fetchable(env, ix, disk, tx.vin) && ConnectInputsOk(env, ix, disk, tx)
    ensures ValueIn(ix, disk, tx.vin) >= 0
  {
    if tx.vin != [] {
      var n := |tx.vin| - 1;
      assert CheapOk(env, ix, disk, tx, n);
      assert tx.vin[..n + 1] == tx.vin;
    }
  }

  /** If no transaction of the block spends another, every input comes from the chain. */
  lemma ChainInputs(w: World, vtx: seq<Tx>, k: nat, ix: Index)
    requires WellOrdered(w, vtx) && NoChildren(w, vtx) && k < |vtx| && InStep(w, ix, vtx[..k])
    requires forall i :: 0 <= i < |vtx| ==> vtx[i].hash !in w.db
    ensures Fetchable(w.env, After(w.db, vtx[..k]), w.disk, vtx[k].vin) && FromChain(w, After(w.db, vtx[..k]), ix, vtx[k].vin)
  {
    hide ConnectInputsOk, After, FeeRateOf, SizeWith, SigOpsWith, FeeOf, Wanted, AlikeAt;
    assert Chosen(w, vtx, k);
    var vin, waits := vtx[k].vin, Awaited(w, vtx[k].vin);
    forall i | 0 <= i < |vin|
      ensures ChainEntry(w, After(w.db, vtx[..k]), ix, vin[i].hash)
    {
      var o := vin[i];
      assert o in vin;
      assert OnDisk(w, o) || o.hash in waits;
      assert o.hash !in Ids(vtx[..k]);
      OldEntry(w.db, vtx[..k], o.hash);
    }
  }

  lemma StaysInStep(w: World, ix: Index, vtx: seq<Tx>, k: nat, coinbase: Tx, pos: DiskTxPos)
    requires FreshBlock(w, coinbase, vtx) && k < |vtx| && !vtx[k].IsCoinBase() && pos.Pos? && InStep(w, ix, vtx[..k])
    ensures InStep(w, ConnectTx(ix, vtx[k], pos), vtx[..k + 1])
  {
    assert vtx[..k + 1][..k] == vtx[..k];
    forall h | h in w.db
      ensures AlikeAt(After(w.db, vtx[..k + 1]), ConnectTx(ix, vtx[k], pos), h)
    {
      ConnectAlike(After(w.db, vtx[..k]), ix, vtx[k], NOT_ON_DISK, pos, h);
    }
  }

  ghost predicate AllSigned(w: World, env: Env, vtx: seq<Tx>) {
    forall i :: 0 <= i < |vtx| ==> SignedTx(w, env, vtx[i])
  }

  lemma SignedSoFar(w: World, env: Env, vtx: seq<Tx>, k: nat)
    requires 0 < k <= |vtx|
    ensures AllSigned(w, env, vtx[..k]) <==> AllSigned(w, env, vtx[..k - 1]) && SignedTx(w, env, vtx[k - 1])
  {
    hide SignedTx;
    forall i | 0 <= i < k - 1 ensures vtx[..k][i] == vtx[..k - 1][i] { }
    assert vtx[..k][k - 1] == vtx[k - 1];
  }

  /** ConnectBlock's loop accepts the transactions of an assembled block at their places on disk exactly if their
      signatures pass, and finds the fees the miner found. */
  lemma {:induction false} LoopAccepts(w: World, env: Env, disk: Disk, pindex: BlockIndex, coinbase: Tx, vtx: seq<Tx>, at: seq<DiskTxPos>, k: nat)
    requires SameRules(w, env, disk, pindex) && FreshBlock(w, coinbase, vtx) && WellOrdered(w, vtx) && NoChildren(w, vtx) && k <= |vtx|
    requires |at| == |vtx| + 1 && forall i :: 0 <= i < |at| ==> at[i].Pos?
    ensures var all := [coinbase] + vtx;
            var t := RunTxs(env, w.db, disk, all, at, k + 1);
            && (t.Some? <==> AllSigned(w, env, vtx[..k])) && (t.Some? ==> SameSums(w, coinbase, vtx[..k], t.value))
            && InStep(w, ConnectTxs(w.db, all, at, k + 1), vtx[..k])
  {
    hide SameSums, InStep, SameRules, FreshBlock, WellOrdered, NoChildren, AcceptTx, TallyTx, ConnectTx, SignedTx, AllSigned;
    var all := [coinbase] + vtx;
    if k == 0 {
      assert vtx[..0] == [];
      NothingToSign(w, env);
      CoinbaseFirst(w, env, disk, pindex, coinbase, vtx, at);
    } else {
      LoopAccepts(w, env, disk, pindex, coinbase, vtx, at, k - 1);
      var before, ix := RunTxs(env, w.db, disk, all, at, k), ConnectTxs(w.db, all, at, k);
      assert all[k] == vtx[k - 1];
      SignedSoFar(w, env, vtx, k);
      OrdinaryAt(w, vtx, k - 1);
      if before.Some? {
        NextIsAccepted(w, env, disk, pindex, coinbase, vtx, k - 1, ix, before.value);
      }
      StaysInStep(w, ix, vtx, k - 1, coinbase, at[k]);
    }
  }

  lemma NothingToSign(w: World, env: Env)
    ensures AllSigned(w, env, [])
  {
  }

  lemma OrdinaryAt(w: World, vtx: seq<Tx>, i: nat)
    requires WellOrdered(w, vtx) && i < |vtx|
    ensures !vtx[i].IsCoinBase() && !vtx[i].IsCoinStake()
  {
    hide Admits, Awaited, Complete;
    assert Chosen(w, vtx, i);
  }

  // ----- the block

  /** An assembled proof-of-work block is accepted by ConnectBlock exactly if it passes CheckBlock, its signatures pass,
      and its height is outside the switch-over range, where the reward check still asks for the legacy payout. */
  lemma MinedBlockIsAccepted(w: World, env: Env, disk: Disk, pindex: BlockIndex, block: Block, vtx: seq<Tx>, coinbase: Tx)
    requires SameRules(w, env, disk, pindex) && FreshBlock(w, coinbase, vtx) && WellOrdered(w, vtx) && NoChildren(w, vtx)
    requires block.vtx == [coinbase] + vtx && pindex.height > 0
    requires SumOut(coinbase.vout) == ProofOfWorkReward(pindex.height, FeesOf(w.db, w.disk, vtx), w.env.bestSupply)
    ensures var t := RunTxs(env, w.db, disk, block.vtx, Places(pindex, block.vtx), |block.vtx|);
            (t.Some? <==> AllSigned(w, env, vtx)) && (t.Some? ==> t.value.fees == FeesOf(w.db, w.disk, vtx))
    ensures AcceptBlock(env, w.db, disk, block, pindex) <==>
            CheckBlock(env, block) && AllSigned(w, env, vtx) && !(980_949 < pindex.height < 990_000)
  {
    hide SameRules, FreshBlock, RunTxs, CheckBlock, FeesOf, SumOut, SigOpsWith, Places, AllSigned, WellOrdered, NoChildren;
    var at := Places(pindex, block.vtx);
    PlacesAreReal(pindex, block.vtx);
    LoopAccepts(w, env, disk, pindex, coinbase, vtx, at, |vtx|);
    assert vtx[..|vtx|] == vtx;
    var t := RunTxs(env, w.db, disk, block.vtx, at, |block.vtx|);
    if |vtx| > 0 {
      OrdinaryAt(w, vtx, 0);
      assert block.vtx[1] == vtx[0];
    }
    if t.Some? {
      WorkIgnoresCap(pindex.height, t.value.fees, w.env.bestSupply, env.bestSupply);
    }
  }

  /** In the switch-over range, say at height 985000, the miner pays itself 500 coins and the check wants 5000. */
  lemma SwitchOverRejects(fees: int, supply: int)
    ensures ProofOfWorkReward(985_000, fees, supply) == 500 * COIN + fees < 5000 * COIN + fees == ExpectedCoinbase(985_000, fees, supply)
  {
  }

  lemma PlacesAreReal(pindex: BlockIndex, vtx: seq<Tx>)
    ensures forall i :: 0 <= i < |vtx| ==> Places(pindex, vtx)[i].Pos?
  {
  }
}
