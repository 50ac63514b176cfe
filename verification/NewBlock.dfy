/** What a newly assembled block satisfies, and when the node itself would accept its reward. */
module NewBlock {
  import opened Primitives
  import opened TxDatabase
  import opened LedgerSpec
  import opened LedgerMoney
  import opened Ledger
  import opened Miner
  import opened Acceptance
  import F = Fees

  /** The accounted size and signature operations stay below their limits after every addition. */
  lemma EveryAdditionFits(w: World, vtx: seq<Tx>, i: nat)
    requires WellOrdered(w, vtx) && i < |vtx|
    ensures SizeWith(vtx[..i + 1]) < w.cfg.maxSize && SigOpsWith(w.env, vtx[..i + 1]) < w.env.maxSigOps
  {
    hide ConnectInputsOk, Fetchable, FeeRateOf, FeeOf, After, Wanted, Awaited;
    assert Chosen(w, vtx, i);
    assert vtx[..i + 1][..i] == vtx[..i];
  }

  /** Every included transaction pays at least the base fee. */
  lemma {:induction false} FeesAddUp(w: World, vtx: seq<Tx>, n: nat)
    requires WellOrdered(w, vtx) && n <= |vtx|
    ensures FeesOf(w.db, w.disk, vtx[..n]) >= n * F.MIN_TX_FEE
  {
    hide ConnectInputsOk, Fetchable, FeeRateOf, FeeOf, After, Wanted, Awaited, F.MinFee;
    if n > 0 {
      FeesAddUp(w, vtx, n - 1);
      assert Chosen(w, vtx, n - 1);
      assert vtx[..n][..n - 1] == vtx[..n - 1];
      F.MinFeeBounds(SizeWith(vtx[..n - 1]) % 0x1_0000_0000, F.Block, 0);
    }
  }

  /** What admission means for a well-formed transaction: there is room for it, its time has come, it pays its way once the
      block is filled by fee, every input is one it may spend, and it leaves the fee the block asks for. */
  lemma AdmittedMeans(w: World, tx: Tx, before: seq<Tx>, byFee: bool)
    requires tx.size > 0 && FormFine(tx)
    ensures Admits(w, tx, before, byFee) <==>
      var ix, size, sigOps := After(w.db, before), SizeWith(before), SigOpsWith(w.env, before);
      && size + tx.size < w.cfg.maxSize
      && sigOps + tx.sigOps + w.env.p2shSigOps(tx) < w.env.maxSigOps
      && tx.time <= w.cfg.now && (w.cfg.proofOfStake ==> tx.time <= w.cfg.coinbaseTime)
      && (byFee ==> 1000 * (TotalIn(w, tx.vin) - SumOut(tx.vout)) >= w.cfg.minTxFee * tx.size || size + tx.size < w.cfg.minSize)
      && SpenderFine(w.env, ix, w.disk, tx)
      && ValueIn(ix, w.disk, tx.vin) - SumOut(tx.vout) >= F.MinFee(size % 0x1_0000_0000, F.Block, 0)
  {
    hide After, SizeWith, SigOpsWith, ConnectInputsOk, Fetchable, SpenderFine, FormFine, F.MinFee, TotalIn, ValueIn, SumOut, FeeRateOf;
    var ix := After(w.db, before);
    RateMeans(w, tx, w.cfg.minTxFee);
    FormFacts(tx);
    if SpenderFine(w.env, ix, w.disk, tx) {
      FineConnects(w.env, ix, w.disk, tx);
    }
    if Fetchable(w.env, ix, w.disk, tx.vin) && ConnectInputsOk(w.env, ix, w.disk, tx) {
      ConnectsFine(w.env, ix, w.disk, tx);
    }
  }

  /** In that round the room for priority transactions was used up, or the popped transaction's priority, value times
      confirmations per byte, was below 57.6 million; and it was not refused for room, operations or time before. */
  ghost predicate TurnsToFees(w: World, order: seq<Hash>, i: nat)
    requires i < |order|
  {
    order[i] in w.pool && w.pool[order[i]].size > 0 &&
    var tx, before := w.pool[order[i]], Replay(w, order[..i]).vtx;
    && SizeWith(before) + tx.size < w.cfg.maxSize && SigOpsWith(w.env, before) + tx.sigOps < w.env.maxSigOps
    && tx.time <= w.cfg.now && (w.cfg.proofOfStake ==> tx.time <= w.cfg.coinbaseTime)
    && (SizeWith(before) + tx.size >= w.cfg.prioritySize || Age(w, tx.vin) < 57_600_000 * tx.size)
  }

  /** The queue is ordered by fee from the start if there is no room for priority, else exactly from the first such round. */
  lemma {:induction false} ByFeeMeans(w: World, order: seq<Hash>)
    ensures Replay(w, order).byFee <==> w.cfg.prioritySize == 0 || exists i :: 0 <= i < |order| && TurnsToFees(w, order, i)
  {
    hide Admits, SizeWith, SigOpsWith, Age, PriorityOf;
    if order != [] {
      var n := |order| - 1;
      var front := order[..n];
      ByFeeMeans(w, front);
      forall i | 0 <= i < n
        ensures TurnsToFees(w, order, i) <==> TurnsToFees(w, front, i)
      {
        assert front[..i] == order[..i];
      }
      LastTurns(w, order);
    }
  }

  lemma LastTurns(w: World, order: seq<Hash>)
    requires order != []
    ensures var n := |order| - 1;
            Replay(w, order).byFee <==> Replay(w, order[..n]).byFee || TurnsToFees(w, order, n)
  {
    hide Admits, SizeWith, SigOpsWith, Age, PriorityOf;
    var h := order[|order| - 1];
    if h in w.pool && w.pool[h].size > 0 {
      PriorityMeans(w, w.pool[h]);
    }
  }

  lemma PriorityMeans(w: World, tx: Tx)
    requires tx.size > 0
    ensures PriorityOf(w, tx) < (COIN * 144 / 250) as real <==> Age(w, tx.vin) < 57_600_000 * tx.size
  {
    hide Age;
    var p := PriorityOf(w, tx);
    assert p * tx.size as real == Age(w, tx.vin) as real;
    assert COIN * 144 / 250 == 57_600_000;
    if p < 57_600_000.0 {
      assert p * tx.size as real < 57_600_000.0 * tx.size as real;
    } else {
      assert p * tx.size as real >= 57_600_000.0 * tx.size as real;
    }
    assert 57_600_000.0 * tx.size as real == (57_600_000 * tx.size) as real;
  }

  lemma RateMeans(w: World, tx: Tx, rate: int)
    requires tx.size > 0
    ensures FeeRateOf(w, tx) < rate as real <==> 1000 * (TotalIn(w, tx.vin) - SumOut(tx.vout)) < rate * tx.size
  {
    hide TotalIn, SumOut;
    var fee := TotalIn(w, tx.vin) - SumOut(tx.vout);
    var kilobytes := tx.size as real / 1000.0;
    var r := FeeRateOf(w, tx);
    assert r * kilobytes == fee as real;
    assert (1000 * fee) as real == r * tx.size as real;
    if r < rate as real {
      assert r * tx.size as real < rate as real * tx.size as real;
    } else {
      assert r * tx.size as real >= rate as real * tx.size as real;
    }
    assert rate as real * tx.size as real == (rate * tx.size) as real;
  }

  lemma {:induction false} AfterKeys(db: Index, vtx: seq<Tx>)
    ensures After(db, vtx).Keys == db.Keys + Ids(vtx)
  {
    if vtx == [] {
      assert Ids(vtx) == {};
    } else {
      var n := |vtx| - 1;
      assert vtx == vtx[..n] + [vtx[n]];
      AfterKeys(db, vtx[..n]);
      IdsSnoc(vtx[..n], vtx[n]);
    }
  }

  /** Entries of the chain keep their place and size. */
  lemma {:induction false} OldEntry(db: Index, vtx: seq<Tx>, h: Hash)
    requires h in db && h !in Ids(vtx)
    ensures h in After(db, vtx) && After(db, vtx)[h].pos == db[h].pos && |After(db, vtx)[h].spent| == |db[h].spent|
  {
    if vtx != [] {
      var n := |vtx| - 1;
      assert vtx == vtx[..n] + [vtx[n]];
      IdsSnoc(vtx[..n], vtx[n]);
      OldEntry(db, vtx[..n], h);
      MarkAt(After(db, vtx[..n]), vtx[n].vin, NOT_ON_DISK, h);
    }
  }

  /** Entries of included transactions lie at the placeholder, one mark for each output. */
  lemma {:induction false} NewestEntry(db: Index, vtx: seq<Tx>, j: nat)
    requires j < |vtx| && DistinctIds(vtx)
    ensures var h := vtx[j].hash;
            h in After(db, vtx) && After(db, vtx)[h].pos == NOT_ON_DISK && |After(db, vtx)[h].spent| == |vtx[j].vout|
  {
    var n := |vtx| - 1;
    if j < n {
      NewestEntry(db, vtx[..n], j);
      MarkAt(After(db, vtx[..n]), vtx[n].vin, NOT_ON_DISK, vtx[j].hash);
    }
  }

  /** Output n can be read at the position that stands for "not on disk". */
  predicate PlaceholderReads(w: World, n: nat) {
    NOT_ON_DISK in w.disk && n < |w.disk[NOT_ON_DISK].vout|
  }

  /** Exactly when an input that spends an included transaction can be fetched: its parent is still in the pool, has
      that output, and so does whatever is read at the placeholder. */
  lemma ChildFetch(w: World, before: seq<Tx>, j: nat, o: OutPoint)
    requires DistinctIds(before) && j < |before| && o.hash == before[j].hash
    ensures FetchOk(w.env, After(w.db, before), w.disk, o) <==>
            o.n < |before[j].vout| && o.hash in w.env.pool && PlaceholderReads(w, o.n)
  {
    NewestEntry(w.db, before, j);
  }

  /** Any other input is fetched as from the chain. */
  lemma OtherFetch(w: World, before: seq<Tx>, o: OutPoint)
    requires o.hash !in Ids(before)
    ensures FetchOk(w.env, After(w.db, before), w.disk, o) <==> FetchOk(w.env, w.db, w.disk, o)
  {
    AfterKeys(w.db, before);
    if o.hash in w.db {
      OldEntry(w.db, before, o.hash);
    }
  }

  /** Exactly when all inputs of a transaction can be fetched after the transactions `before`. */
  lemma FetchableAfter(w: World, before: seq<Tx>, vin: seq<OutPoint>)
    requires DistinctIds(before)
    ensures Fetchable(w.env, After(w.db, before), w.disk, vin) <==>
            forall i :: 0 <= i < |vin| ==> FetchesFrom(w, before, vin[i])
  {
    hide FetchOk, After;
    forall i | 0 <= i < |vin|
      ensures FetchOk(w.env, After(w.db, before), w.disk, vin[i]) <==> FetchesFrom(w, before, vin[i])
    {
      if vin[i].hash in Ids(before) {
        var j :| 0 <= j < |before| && before[j].hash == vin[i].hash;
        ChildFetch(w, before, j, vin[i]);
      } else {
        OtherFetch(w, before, vin[i]);
      }
    }
  }

  /** An input of an included transaction is read at the placeholder, any other on the chain. */
  ghost predicate FetchesFrom(w: World, before: seq<Tx>, o: OutPoint) {
    if o.hash in Ids(before)
    then (exists j :: 0 <= j < |before| && before[j].hash == o.hash && o.n < |before[j].vout|) && o.hash in w.env.pool && PlaceholderReads(w, o.n)
    else FetchOk(w.env, w.db, w.disk, o)
  }

  /** A transaction that had to wait is admitted only if every output it awaited can be read at the placeholder; so
      if nothing is there, no transaction with a parent in the pool is ever included. */
  lemma ChildrenAreLeftOut(w: World, vtx: seq<Tx>, i: nat)
    requires WellOrdered(w, vtx) && i < |vtx|
    ensures forall o :: o in vtx[i].vin && !OnDisk(w, o) ==> o.hash in Ids(vtx[..i]) && PlaceholderReads(w, o.n)
    ensures NOT_ON_DISK !in w.disk ==> Awaited(w, vtx[i].vin) == {}
  {
    hide ConnectInputsOk, FeeRateOf, FeeOf, After, Wanted, SizeWith, SigOpsWith;
    assert Chosen(w, vtx, i);
    var ix, before, vin, waits := After(w.db, vtx[..i]), vtx[..i], vtx[i].vin, Awaited(w, vtx[i].vin);
    forall o | o in vin && !OnDisk(w, o)
      ensures o.hash in Ids(before) && PlaceholderReads(w, o.n)
    {
      var j :| 0 <= j < |vin| && vin[j] == o;
      assert FetchOk(w.env, ix, w.disk, vin[j]);
      assert o.hash in waits;
      var p :| 0 <= p < |before| && before[p].hash == o.hash;
      ChildFetch(w, before, p, o);
    }
  }

  predicate IsSpent(ix: Index, o: OutPoint) {
    InRange(ix, o) && ix[o.hash].spent[o.n] != Null
  }

  lemma SpentStaysSpent(ix: Index, tx: Tx, o: OutPoint)
    requires !tx.IsCoinBase() && tx.hash !in ix && InRange(ix, o) && (IsSpent(ix, o) || o in tx.vin)
    ensures IsSpent(ConnectTx(ix, tx, NOT_ON_DISK), o)
  {
    MarkAt(ix, tx.vin, NOT_ON_DISK, o.hash);
    assert OutPoint(o.hash, o.n) == o;
  }

  lemma {:induction false} SpentOnceIncluded(w: World, vtx: seq<Tx>, i: nat, j: nat, o: OutPoint)
    requires WellOrdered(w, vtx) && i < j <= |vtx| && o in vtx[i].vin
    requires forall k :: 0 <= k < |vtx| ==> vtx[k].hash !in w.db
    ensures IsSpent(After(w.db, vtx[..j]), o)
  {
    hide ConnectInputsOk, FeeRateOf, FeeOf, SizeWith, SigOpsWith, Awaited, ConnectTx, Complete;
    var before, tx := vtx[..j - 1], vtx[j - 1];
    var ix := After(w.db, before);
    assert Chosen(w, vtx, j - 1);
    assert vtx[..j] == before + [tx] && vtx[..j][..j - 1] == before;
    AfterKeys(w.db, before);
    assert tx.hash !in Ids(before);
    if i < j - 1 {
      SpentOnceIncluded(w, vtx, i, j - 1, o);
    } else {
      var k :| 0 <= k < |tx.vin| && tx.vin[k] == o;
      assert FetchOk(w.env, ix, w.disk, tx.vin[k]);
    }
    SpentStaysSpent(ix, tx, o);
  }

  /** No output is spent by two transactions of the block, given that no pool id is on the chain already. */
  lemma NoDoubleSpend(w: World, vtx: seq<Tx>, i: nat, j: nat, o: OutPoint)
    requires WellOrdered(w, vtx) && i < j < |vtx| && o in vtx[i].vin
    requires forall k :: 0 <= k < |vtx| ==> vtx[k].hash !in w.db
    ensures o !in vtx[j].vin
  {
    hide FeeRateOf, FeeOf, After, SizeWith, SigOpsWith, Awaited, CheapOk, SignedOk, FeeOk;
    SpentOnceIncluded(w, vtx, i, j, o);
    assert Chosen(w, vtx, j);
  }

  datatype Template = Template(coinbase: TxOut, vtx: seq<Tx>, fees: int)

  /** CreateNewBlock, up to the header: the block is the one the order of popping gives. */
  method CreateNewBlock(db: TxDb, w: World, height: nat, bestSupply: int, script: string) returns (b: Template, ghost order: seq<Hash>)
    requires db.View().txs == w.db && PoolOk(w)
    ensures PopOrder(w, order) && HighestFirst(w, order) && NothingForgotten(w, order) && b.vtx == Replay(w, order).vtx
    ensures WellOrdered(w, b.vtx) && b.fees == FeesOf(w.db, w.disk, b.vtx)
    ensures b.fees >= |b.vtx| * F.MIN_TX_FEE
    ensures w.cfg.proofOfStake ==> b.coinbase.IsEmpty()
    ensures !w.cfg.proofOfStake ==> b.coinbase == TxOut(ProofOfWorkReward(height, b.fees, bestSupply), script)
  {
    hide WellOrdered, NothingForgotten, FeesOf, ProofOfWorkReward, PopOrder, Replay, HighestFirst;
    var k;
    k, order := CollectTransactions(db, w);
    ReplayIsWellOrdered(w, order);
    assert k.vtx[..|k.vtx|] == k.vtx;
    FeesAddUp(w, k.vtx, |k.vtx|);
    var coinbase := TxOut(0, "");
    if !w.cfg.proofOfStake {
      coinbase := TxOut(ProofOfWorkReward(height, k.fees, bestSupply), script);
    }
    b := Template(coinbase, k.vtx, k.fees);
  }
}
