/** ConnectBlock and DisconnectBlock over the database, and what every accepted block satisfies. */
module LedgerBlocks {
  import opened Primitives
  import opened TxDatabase
  import opened LedgerSpec
  import opened LedgerMoney
  import opened Ledger

  function SupplyBelow(pprev: Option<BlockRecord>): int {
    if pprev.Some? then pprev.value.state.supply else 0
  }

  /** The mint and supply of a block with these sums, connected on top of `pprev`. */
  function Credited(state: BlockState, pprev: Option<BlockRecord>, t: Tally): BlockState {
    state.(mint := t.valueOut - t.valueIn + t.fees, supply := SupplyBelow(pprev) + t.valueOut - t.valueIn)
  }

  /** Points the record of the block below, if any, at its new successor. */
  function Relinked(blocks: map<Hash, BlockRecord>, pindex: BlockIndex, pprev: Option<BlockRecord>, next: Option<Hash>)
    : map<Hash, BlockRecord>
  {
    if pprev.Some? && pindex.prev.Some?
    then blocks[pindex.prev.value := pprev.value.(state := pprev.value.state.(next := next))] else blocks
  }

  /** The loop over the block's transactions: nothing is written yet. */
  method ConnectAll(db: TxDb, env: Env, disk: Disk, vtx: seq<Tx>, pindex: BlockIndex)
    returns (ok: bool, queued: Index, t: Tally)
    ensures ok <==> RunTxs(env, db.View().txs, disk, vtx, Places(pindex, vtx), |vtx|).Some?
    ensures ok ==> Some(t) == RunTxs(env, db.View().txs, disk, vtx, Places(pindex, vtx), |vtx|)
    ensures ok ==> db.View().txs + queued == ConnectTxs(db.View().txs, vtx, Places(pindex, vtx), |vtx|)
  {
    hide AcceptTx, TallyTx, ConnectTx;
    queued, t := map[], NO_TALLY;
    var offset := pindex.blockPos + 80 + CompactSize(|vtx|);
    ghost var at, ix := Places(pindex, vtx), db.View().txs;
    for k := 0 to |vtx|
      invariant offset == TxOffset(pindex, vtx, k)
      invariant RunTxs(env, ix, disk, vtx, at, k) == Some(t)
      invariant ix + queued == ConnectTxs(ix, vtx, at, k)
    {
      var pos := Pos(pindex.file, pindex.blockPos, offset);
      offset := offset + vtx[k].size;
      ok, queued, t := ConnectOne(db, env, disk, vtx[k], pos, queued, t);
      if !ok {
        RunStops(env, ix, disk, vtx, at, k + 1);
        return;
      }
    }
    ok := true;
  }

  lemma {:induction false} RunStops(env: Env, db: Index, disk: Disk, vtx: seq<Tx>, at: seq<DiskTxPos>, k: nat)
    requires k <= |vtx| == |at| && RunTxs(env, db, disk, vtx, at, k).None?
    ensures RunTxs(env, db, disk, vtx, at, |vtx|).None?
    decreases |vtx| - k
  {
    if k < |vtx| {
      RunStops(env, db, disk, vtx, at, k + 1);
    }
  }

  /** Writes the queued index entries one by one. */
  method WriteQueued(db: TxDb, queued: Index)
    modifies db
    ensures db.View() == old(db.View()).(txs := old(db.View()).txs + queued)
    ensures db.activeBatch.Some? == old(db.activeBatch.Some?)
    ensures db.activeBatch.Some? ==> db.store == old(db.store)
  {
    var todo: set<Hash> := queued.Keys;
    while exists h :: h in todo
      invariant todo <= queued.Keys
      invariant db.View() == old(db.View()).(txs := old(db.View()).txs + (queued - todo))
      invariant db.activeBatch.Some? == old(db.activeBatch.Some?)
      invariant db.activeBatch.Some? ==> db.store == old(db.store)
      decreases |todo|
    {
      var h :| h in todo;
      db.UpdateTxIndex(h, queued[h]);
      todo := todo - {h};
    }
    assert queued - {} == queued;
  }

  method ConnectBlock(db: TxDb, env: Env, disk: Disk, block: Block, pindex: BlockIndex, state: BlockState,
                      pprev: Option<BlockRecord>)
    returns (r: Option<BlockState>)
    modifies db
    ensures r.Some? <==> AcceptBlock(env, old(db.View().txs), disk, block, pindex)
    ensures r.None? ==> db.View() == old(db.View())
    ensures r.Some? ==>
      var at := Places(pindex, block.vtx);
      var t := RunTxs(env, old(db.View().txs), disk, block.vtx, at, |block.vtx|).value;
      r.value == Credited(state, pprev, t)
    ensures r.Some? ==>
      var at := Places(pindex, block.vtx);
      db.View() == Store(ConnectTxs(old(db.View().txs), block.vtx, at, |block.vtx|),
                         Relinked(old(db.View().blocks)[block.hash := BlockRecord(pindex, r.value)],
                                  pindex, pprev, Some(block.hash)),
                         old(db.View().best))
    ensures db.activeBatch.Some? == old(db.activeBatch.Some?)
    ensures db.activeBatch.Some? ==> db.store == old(db.store)
  {
    if !CheckBlock(env, block) {
      return None;
    }
    var ok, queued, t := ConnectAll(db, env, disk, block.vtx, pindex);
    if !ok {
      return None;
    }
    var reward := Reward(env, block, pindex.height, t);
    if reward.None? {
      return None;
    }
    if t.valueIn + reward.value < t.valueOut {
      return None;
    }
    var credited := Credited(state, pprev, t);
    db.WriteBlockIndex(block.hash, BlockRecord(pindex, credited));
    WriteQueued(db, queued);
    if pprev.Some? && pindex.prev.Some? {
      db.WriteBlockIndex(pindex.prev.value, pprev.value.(state := pprev.value.state.(next := Some(block.hash))));
    }
    r := Some(credited);
  }

  /** Gives back the outputs a transaction spent, then removes it from the index. */
  method DisconnectInputs(db: TxDb, tx: Tx) returns (ok: bool)
    modifies db
    ensures ok <==> CanDisconnect(old(db.View().txs), tx)
    ensures ok ==> db.View() == old(db.View()).(txs := DisconnectTx(old(db.View().txs), tx))
    ensures db.activeBatch.Some? == old(db.activeBatch.Some?)
    ensures db.activeBatch.Some? ==> db.store == old(db.store)
  {
    hide Mark, InRange;
    ghost var ix := db.View().txs;
    if !tx.IsCoinBase() {
      MarkNothing(ix, Null);
      for i := 0 to |tx.vin|
        invariant db.View() == old(db.View()).(txs := Mark(ix, tx.vin[..i], Null))
        invariant forall j :: 0 <= j < i ==> InRange(ix, tx.vin[j])
        invariant db.activeBatch.Some? == old(db.activeBatch.Some?)
        invariant db.activeBatch.Some? ==> db.store == old(db.store)
      {
        var o := tx.vin[i];
        UnmarkNext(ix, tx.vin, i);
        var entry := db.ReadTxIndex(o.hash);
        if entry.None? {
          return false;
        }
        if o.n >= |entry.value.spent| {
          return false;
        }
        db.UpdateTxIndex(o.hash, entry.value.(spent := entry.value.spent[o.n := Null]));
      }
      assert tx.vin[..|tx.vin|] == tx.vin;
    }
    db.EraseTxIndex(tx.hash);
    ok := true;
  }

  lemma UnmarkNext(ix: Index, vin: seq<OutPoint>, i: nat)
    requires i < |vin|
    ensures var m, o := Mark(ix, vin[..i], Null), vin[i];
            && (InRange(ix, o) <==> o.hash in m && o.n < |m[o.hash].spent|)
            && (InRange(ix, o) ==> Mark(ix, vin[..i + 1], Null) == m[o.hash := m[o.hash].(spent := m[o.hash].spent[o.n := Null])])
  {
    hide Mark;
    MarkAt(ix, vin[..i], Null, vin[i].hash);
    if InRange(ix, vin[i]) {
      MarkSnoc(ix, vin[..i], vin[i], Null);
      assert vin[..i + 1] == vin[..i] + [vin[i]];
    }
  }

  method DisconnectBlock(db: TxDb, block: Block, pindex: BlockIndex, pprev: Option<BlockRecord>) returns (ok: bool)
    modifies db
    ensures ok <==> DisconnectTxs(old(db.View().txs), block.vtx, |block.vtx|).Some?
    ensures ok ==>
      db.View() == Store(DisconnectTxs(old(db.View().txs), block.vtx, |block.vtx|).value,
                         Relinked(old(db.View().blocks), pindex, pprev, None), old(db.View().best))
    ensures db.activeBatch.Some? == old(db.activeBatch.Some?)
    ensures db.activeBatch.Some? ==> db.store == old(db.store)
  {
    ghost var ix := db.View().txs;
    for k := |block.vtx| downto 0
      invariant db.View() == old(db.View()).(txs := db.View().txs)
      invariant DisconnectTxs(db.View().txs, block.vtx, k) == DisconnectTxs(ix, block.vtx, |block.vtx|)
      invariant db.activeBatch.Some? == old(db.activeBatch.Some?)
      invariant db.activeBatch.Some? ==> db.store == old(db.store)
    {
      var undone := DisconnectInputs(db, block.vtx[k]);
      if !undone {
        return false;
      }
    }
    if pprev.Some? && pindex.prev.Some? {
      db.WriteBlockIndex(pindex.prev.value, pprev.value.(state := pprev.value.state.(next := None)));
    }
    ok := true;
  }

  // ----- what acceptance means

  lemma RunPrefix(env: Env, db: Index, disk: Disk, vtx: seq<Tx>, at: seq<DiskTxPos>, k: nat)
    requires k <= |vtx| == |at| && RunTxs(env, db, disk, vtx, at, |vtx|).Some?
    ensures RunTxs(env, db, disk, vtx, at, k).Some?
  {
    if RunTxs(env, db, disk, vtx, at, k).None? {
      RunStops(env, db, disk, vtx, at, k);
    }
  }

  lemma AcceptedAt(env: Env, db: Index, disk: Disk, vtx: seq<Tx>, at: seq<DiskTxPos>, i: nat)
    requires i < |vtx| == |at| && RunTxs(env, db, disk, vtx, at, |vtx|).Some?
    ensures FullySpent(db, vtx[i].hash) && SpendsAt(db, vtx, at, i)
  {
    hide ConnectTx, TallyTx, InputsSpendable, FullySpent;
    RunPrefix(env, db, disk, vtx, at, i);
    RunPrefix(env, db, disk, vtx, at, i + 1);
  }

  /** Acceptance implies the structural facts that make disconnecting an inverse. */
  lemma AcceptedSpends(env: Env, db: Index, disk: Disk, block: Block, pindex: BlockIndex)
    requires AcceptBlock(env, db, disk, block, pindex)
    ensures BlockSpends(db, block.vtx, Places(pindex, block.vtx))
  {
    hide RunTxs, FullySpent, SpendsAt, CheckTransaction, Reward;
    var vtx, at := block.vtx, Places(pindex, block.vtx);
    forall i | 0 <= i < |vtx|
      ensures FullySpent(db, vtx[i].hash) && SpendsAt(db, vtx, at, i)
    {
      AcceptedAt(env, db, disk, vtx, at, i);
    }
  }

  /** A block that was accepted can be disconnected at once, and that gives back exactly the unspent
      outputs from before; the index itself comes back exactly unless the block reused spent ids. */
  lemma ConnectThenDisconnect(env: Env, db: Index, disk: Disk, block: Block, pindex: BlockIndex)
    requires AcceptBlock(env, db, disk, block, pindex)
    ensures var after := ConnectTxs(db, block.vtx, Places(pindex, block.vtx), |block.vtx|);
            var back := DisconnectTxs(after, block.vtx, |block.vtx|);
            && back == Some(db - Ids(block.vtx))
            && Unspent(back.value) == Unspent(db)
            && (Ids(block.vtx) !! db.Keys ==> back.value == db)
  {
    AcceptedSpends(env, db, disk, block, pindex);
    DisconnectUndoesConnect(db, block.vtx, Places(pindex, block.vtx));
  }

  /** In a proof-of-work block the sums telescope: fees are what the inputs exceed the other outputs by. */
  lemma {:induction false} WorkSums(env: Env, db: Index, disk: Disk, block: Block, at: seq<DiskTxPos>, k: nat)
    requires CheckBlock(env, block) && !block.IsProofOfStake()
    requires 0 < k <= |block.vtx| == |at| && RunTxs(env, db, disk, block.vtx, at, k).Some?
    ensures var t := RunTxs(env, db, disk, block.vtx, at, k).value;
            t.fees == t.valueIn - t.valueOut + t.coinbase && t.coinbase == SumOut(block.vtx[0].vout)
  {
    if k > 1 {
      WorkSums(env, db, disk, block, at, k - 1);
    }
  }

  /** The check that looks the wrong way round and the balance check together pin the coinbase of a
      proof-of-work block to the calculated reward. */
  lemma CoinbaseIsExact(env: Env, db: Index, disk: Disk, block: Block, pindex: BlockIndex)
    requires AcceptBlock(env, db, disk, block, pindex) && !block.IsProofOfStake()
    ensures var t := RunTxs(env, db, disk, block.vtx, Places(pindex, block.vtx), |block.vtx|).value;
            SumOut(block.vtx[0].vout) == ExpectedCoinbase(pindex.height, t.fees, env.bestSupply)
  {
    WorkSums(env, db, disk, block, Places(pindex, block.vtx), |block.vtx|);
  }

  /** The coins a block of this kind may create. */
  function Subsidy(env: Env, block: Block, height: nat, fees: int): int
    requires block.vtx != []
  {
    if block.IsProofOfStake() then
      var age := env.coinAge(block.vtx[1]);
      ProofOfStakeReward(if age.Some? then age.value else 0, fees, env.bestHeight, env.bestSupply) - fees
    else ExpectedCoinbase(height, fees, env.bestSupply) - fees
  }

  /** No accepted block raises the money supply by more than its subsidy; a proof-of-work block raises it
      by exactly that. */
  lemma SupplyGrowth(env: Env, db: Index, disk: Disk, block: Block, pindex: BlockIndex,
                     state: BlockState, pprev: Option<BlockRecord>)
    requires AcceptBlock(env, db, disk, block, pindex)
    ensures var t := RunTxs(env, db, disk, block.vtx, Places(pindex, block.vtx), |block.vtx|).value;
            var growth := Credited(state, pprev, t).supply - SupplyBelow(pprev);
            growth <= Subsidy(env, block, pindex.height, t.fees) &&
            (!block.IsProofOfStake() ==> growth == Subsidy(env, block, pindex.height, t.fees))
  {
    if !block.IsProofOfStake() {
      WorkSums(env, db, disk, block, Places(pindex, block.vtx), |block.vtx|);
    }
  }

  /** Every accepted proof-of-work block above genesis creates coins, however large the supply already is. */
  lemma WorkAlwaysCreates(env: Env, db: Index, disk: Disk, block: Block, pindex: BlockIndex, state: BlockState, pprev: Option<BlockRecord>)
    requires AcceptBlock(env, db, disk, block, pindex) && !block.IsProofOfStake() && pindex.height > 0
    ensures var t := RunTxs(env, db, disk, block.vtx, Places(pindex, block.vtx), |block.vtx|).value;
            Credited(state, pprev, t).supply > SupplyBelow(pprev)
  {
    hide RunTxs, ProofOfWorkReward, ExpectedCoinbase;
    SupplyGrowth(env, db, disk, block, pindex, state, pprev);
    var t := RunTxs(env, db, disk, block.vtx, Places(pindex, block.vtx), |block.vtx|).value;
    WorkIgnoresCap(pindex.height, t.fees, env.bestSupply, env.bestSupply);
  }

  // ----- conservation over a block

  ghost predicate OnDisk(disk: Disk, vtx: seq<Tx>, at: seq<DiskTxPos>) {
    |vtx| == |at| && forall i :: 0 <= i < |vtx| ==> at[i] in disk && disk[at[i]] == vtx[i]
  }

  /** Outputs minus inputs of the first k transactions. */
  function Delta(db: Index, disk: Disk, vtx: seq<Tx>, at: seq<DiskTxPos>, k: nat): int
    requires k <= |vtx| == |at|
  {
    if k == 0 then 0
    else Delta(db, disk, vtx, at, k - 1) + SumOut(vtx[k - 1].vout) - Consumed(ConnectTxs(db, vtx, at, k - 1), disk, vtx[k - 1])
  }

  /** ConnectBlock's running sums are the block's outputs and inputs. */
  lemma {:induction false} RunSums(env: Env, db: Index, disk: Disk, vtx: seq<Tx>, at: seq<DiskTxPos>, k: nat)
    requires k <= |vtx| == |at| && RunTxs(env, db, disk, vtx, at, k).Some?
    ensures var t := RunTxs(env, db, disk, vtx, at, k).value;
            t.valueOut - t.valueIn == Delta(db, disk, vtx, at, k)
  {
    hide AcceptTx;
    if k > 0 {
      RunSums(env, db, disk, vtx, at, k - 1);
    }
  }

  /** A block written to disk before it is connected keeps the index exact, and the value of all unspent
      outputs grows by the block's outputs minus its inputs. */
  lemma {:induction false} BlockReflects(txs: seq<Tx>, db: Index, disk: Disk, vtx: seq<Tx>, at: seq<DiskTxPos>, k: nat)
    requires k <= |vtx| && OnDisk(disk, vtx, at) && BlockSpends(db, vtx, at)
    requires Reflects(txs, db, disk) && Ids(vtx) !! db.Keys
    ensures var ix := ConnectTxs(db, vtx, at, k);
            && Reflects(txs + vtx[..k], ix, disk)
            && Covers(db, txs) && Covers(ix, txs + vtx[..k])
            && TotalUnspent(ix, txs + vtx[..k]) == TotalUnspent(db, txs) + Delta(db, disk, vtx, at, k)
  {
    hide Reflects, Covers, TotalUnspent, BlockSpends, ConnectTx, SumOut, Consumed;
    if k == 0 {
      assert txs + vtx[..0] == txs;
      ReflectsMeans(txs, db, disk);
    } else {
      BlockReflects(txs, db, disk, vtx, at, k - 1);
      BlockReflectsOne(txs, db, disk, vtx, at, k);
    }
  }

  lemma ReflectsMeans(txs: seq<Tx>, db: Index, disk: Disk)
    requires Reflects(txs, db, disk)
    ensures Covers(db, txs)
  {
    assert forall i :: 0 <= i < |txs| ==> EntryOf(db, disk, txs[i]);
  }

  lemma BlockReflectsOne(txs: seq<Tx>, db: Index, disk: Disk, vtx: seq<Tx>, at: seq<DiskTxPos>, k: nat)
    requires 0 < k <= |vtx| && OnDisk(disk, vtx, at) && BlockSpends(db, vtx, at) && Ids(vtx) !! db.Keys
    requires var ix := ConnectTxs(db, vtx, at, k - 1);
             Reflects(txs + vtx[..k - 1], ix, disk) && Covers(ix, txs + vtx[..k - 1])
    ensures var ix, ix', tx := ConnectTxs(db, vtx, at, k - 1), ConnectTxs(db, vtx, at, k), vtx[k - 1];
            && Reflects(txs + vtx[..k], ix', disk) && Covers(ix', txs + vtx[..k])
            && TotalUnspent(ix', txs + vtx[..k])
               == TotalUnspent(ix, txs + vtx[..k - 1]) + SumOut(tx.vout) - Consumed(ix, disk, tx)
  {
    hide Reflects, Covers, TotalUnspent;
    var ix, tx := ConnectTxs(db, vtx, at, k - 1), vtx[k - 1];
    NewId(db, vtx, at, k - 1);
    assert SpendsAt(db, vtx, at, k - 1);
    ConnectReflects(txs + vtx[..k - 1], ix, disk, tx, at[k - 1]);
    ConnectConserves(txs + vtx[..k - 1], ix, disk, tx, at[k - 1]);
    assert txs + vtx[..k] == txs + vtx[..k - 1] + [tx];
  }

  lemma ConnectKeys(ix: Index, tx: Tx, pos: DiskTxPos)
    ensures ConnectTx(ix, tx, pos).Keys == ix.Keys + {tx.hash}
  {
    MarkAt(ix, tx.vin, pos, tx.hash);
  }

  lemma {:induction false} ConnectedKeys(db: Index, vtx: seq<Tx>, at: seq<DiskTxPos>, k: nat)
    requires k <= |vtx| == |at|
    ensures ConnectTxs(db, vtx, at, k).Keys == db.Keys + Ids(vtx[..k])
  {
    hide ConnectTx;
    if k > 0 {
      ConnectedKeys(db, vtx, at, k - 1);
      ConnectKeys(ConnectTxs(db, vtx, at, k - 1), vtx[k - 1], at[k - 1]);
      assert vtx[..k] == vtx[..k - 1] + [vtx[k - 1]];
      IdsSnoc(vtx[..k - 1], vtx[k - 1]);
    }
  }

  lemma NewId(db: Index, vtx: seq<Tx>, at: seq<DiskTxPos>, k: nat)
    requires k < |vtx| && BlockSpends(db, vtx, at) && Ids(vtx) !! db.Keys
    ensures vtx[k].hash !in ConnectTxs(db, vtx, at, k)
  {
    ConnectedKeys(db, vtx, at, k);
    assert vtx[k].hash in Ids(vtx);
  }
}
