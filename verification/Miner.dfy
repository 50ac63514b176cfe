/** CreateNewBlock: which pool transactions go into a new block, in which order, and for which fees. */
module Miner {
  import opened Primitives
  import opened TxDatabase
  import opened LedgerSpec
  import opened LedgerMoney
  import opened Ledger
  import opened Scheduler
  import F = Fees

  /** Limits and circumstances. `final` and `depth` stand for IsFinalTx and GetDepthInMainChain. */
  datatype Config = Config(maxSize: nat, prioritySize: nat, minSize: nat, minTxFee: int, now: nat, proofOfStake: bool,
                           coinbaseTime: nat, final: Tx -> bool, depth: TxIndex -> int)

  /** What the miner sees: `db` is the transaction index as the database answers. */
  datatype World = World(env: Env, cfg: Config, db: Index, disk: Disk, pool: map<Hash, Tx>)

  const NOT_ON_DISK := Pos(1, 1, 1)

  /** The size limits from the configured values. */
  function Limits(maxSize: nat, prioritySize: nat, minSize: nat): (r: (nat, nat, nat))
    ensures 1000 <= r.0 <= F.MAX_BLOCK_SIZE - 1000 && r.1 <= r.0 && r.2 <= r.0
    ensures 1000 <= maxSize <= F.MAX_BLOCK_SIZE - 1000 ==> r.0 == maxSize
    ensures prioritySize <= r.0 ==> r.1 == prioritySize
    ensures minSize <= r.0 ==> r.2 == minSize
  {
    var least := if maxSize <= F.MAX_BLOCK_SIZE - 1000 then maxSize else F.MAX_BLOCK_SIZE - 1000;
    var max := if least >= 1000 then least else 1000;
    (max, if prioritySize <= max then prioritySize else max, if minSize <= max then minSize else max)
  }

  // ----- what the block's sums are

  /** The index after the chosen transactions, each at a position that stands for "not on disk". */
  function After(db: Index, vtx: seq<Tx>): Index {
    if vtx == [] then db else ConnectTx(After(db, vtx[..|vtx| - 1]), vtx[|vtx| - 1], NOT_ON_DISK)
  }

  function SizeWith(vtx: seq<Tx>): nat {
    if vtx == [] then 1000 else SizeWith(vtx[..|vtx| - 1]) + vtx[|vtx| - 1].size
  }

  function SigOpsWith(env: Env, vtx: seq<Tx>): nat {
    if vtx == [] then 100
    else SigOpsWith(env, vtx[..|vtx| - 1]) + vtx[|vtx| - 1].sigOps + env.p2shSigOps(vtx[|vtx| - 1])
  }

  /** The fee of a transaction against an index. */
  function FeeOf(ix: Index, disk: Disk, tx: Tx): int {
    ValueIn(ix, disk, tx.vin) - SumOut(tx.vout)
  }

  function FeesOf(db: Index, disk: Disk, vtx: seq<Tx>): int {
    if vtx == [] then 0
    else FeesOf(db, disk, vtx[..|vtx| - 1]) + FeeOf(After(db, vtx[..|vtx| - 1]), disk, vtx[|vtx| - 1])
  }

  // ----- scoring and waiting

  /** CTransaction::ReadFromDisk of an input's previous transaction succeeds. */
  predicate OnDisk(w: World, o: OutPoint) {
    o.hash in w.db && w.db[o.hash].pos in w.disk && o.n < |w.disk[w.db[o.hash].pos].vout|
  }

  predicate InPool(w: World, o: OutPoint) {
    o.hash in w.pool && o.n < |w.pool[o.hash].vout|
  }

  /** The previous transaction is neither readable nor in the pool. */
  predicate Missing(w: World, o: OutPoint) {
    !OnDisk(w, o) && o.hash !in w.pool
  }

  predicate Complete(w: World, vin: seq<OutPoint>) {
    forall i :: 0 <= i < |vin| ==> !Missing(w, vin[i])
  }

  predicate Ordinary(w: World, tx: Tx) {
    !tx.IsCoinBase() && !tx.IsCoinStake() && w.cfg.final(tx)
  }

  /** What the scan lets through: ordinary transactions all of whose inputs are on the chain or in the pool. */
  predicate Wanted(w: World, tx: Tx) {
    Ordinary(w, tx) && Complete(w, tx.vin)
  }

  /** Inputs the scan can go through: it indexes the outputs of a pool parent, and it drops a transaction with a
      missing input while nothing points at it yet. */
  predicate Scannable(w: World, vin: seq<OutPoint>) {
    forall i :: 0 <= i < |vin| && !OnDisk(w, vin[i]) && Complete(w, vin[..i + 1]) ==> InPool(w, vin[i]) && Complete(w, vin)
  }

  /** Pool transactions are filed under their ids and can be scanned. */
  predicate PoolOk(w: World) {
    forall h :: h in w.pool ==> w.pool[h].hash == h && w.pool[h].size > 0 && (Ordinary(w, w.pool[h]) ==> Scannable(w, w.pool[h].vin))
  }

  /** The parents a transaction has to wait for. */
  function Awaited(w: World, vin: seq<OutPoint>): set<Hash> {
    set o | o in vin && !OnDisk(w, o) :: o.hash
  }

  function InputValue(w: World, o: OutPoint): int {
    if OnDisk(w, o) then w.disk[w.db[o.hash].pos].vout[o.n].value
    else if InPool(w, o) then w.pool[o.hash].vout[o.n].value
    else 0
  }

  function TotalIn(w: World, vin: seq<OutPoint>): int {
    if vin == [] then 0 else TotalIn(w, vin[..|vin| - 1]) + InputValue(w, vin[|vin| - 1])
  }

  /** Value times confirmations, over the inputs that are on the chain. */
  function Age(w: World, vin: seq<OutPoint>): int {
    if vin == [] then 0
    else
      var o := vin[|vin| - 1];
      Age(w, vin[..|vin| - 1]) + if OnDisk(w, o) then InputValue(w, o) * w.cfg.depth(w.db[o.hash]) else 0
  }

  function PriorityOf(w: World, tx: Tx): real
    requires tx.size > 0
  {
    Age(w, tx.vin) as real / tx.size as real
  }

  function FeeRateOf(w: World, tx: Tx): real
    requires tx.size > 0
  {
    (TotalIn(w, tx.vin) - SumOut(tx.vout)) as real / (tx.size as real / 1000.0)
  }

  predicate Scored(w: World, tx: Tx, priority: real, feePerKb: real) {
    tx.size > 0 && priority == PriorityOf(w, tx) && feePerKb == FeeRateOf(w, tx)
  }

  /** The inputs of one pool transaction: what it waits for, and its sums; not ok if one is missing. */
  method ScanInputs(db: TxDb, w: World, tx: Tx, dependers: Dependers, k: nat)
    returns (ok: bool, waits: set<Hash>, dependers': Dependers, priority: real, feePerKb: real)
    requires db.View().txs == w.db && tx.size > 0 && Scannable(w, tx.vin)
    ensures ok <==> Complete(w, tx.vin)
    ensures !ok ==> dependers' == dependers
    ensures ok ==> waits == Awaited(w, tx.vin) && Grown(dependers, dependers', k, waits)
    ensures ok ==> Scored(w, tx, priority, feePerKb)
  {
    hide Grown, Scannable, Complete, Awaited, TotalIn, Age;
    ok, waits, dependers', priority, feePerKb := false, {}, dependers, 0.0, 0.0;
    var total, age := 0, 0;
    ScanStart(w, tx.vin, dependers, k);
    for i := 0 to |tx.vin|
      invariant Complete(w, tx.vin[..i])
      invariant waits == Awaited(w, tx.vin[..i]) && Grown(dependers, dependers', k, waits)
      invariant total == TotalIn(w, tx.vin[..i]) && age == Age(w, tx.vin[..i])
    {
      var o := tx.vin[i];
      ScanNext(w, tx.vin, i);
      var index := db.ReadTxIndex(o.hash);
      if index.None? || index.value.pos !in w.disk || o.n >= |w.disk[index.value.pos].vout| {
        if o.hash !in w.pool {
          NothingNew(dependers, dependers', k);
          return;
        }
        var list := if o.hash in dependers' then dependers'[o.hash] else [];
        GrowOne(dependers, dependers', k, waits, o.hash, list);
        dependers' := dependers'[o.hash := list + [k]];
        waits := waits + {o.hash};
        total := total + w.pool[o.hash].vout[o.n].value;
      } else {
        var value := w.disk[index.value.pos].vout[o.n].value;
        total := total + value;
        age := age + value * w.cfg.depth(index.value);
      }
    }
    assert tx.vin[..|tx.vin|] == tx.vin;
    priority := age as real / tx.size as real;
    feePerKb := (total - SumOut(tx.vout)) as real / (tx.size as real / 1000.0);
    ok := true;
  }

  lemma ScanStart(w: World, vin: seq<OutPoint>, dependers: Dependers, k: nat)
    ensures Complete(w, vin[..0]) && Awaited(w, vin[..0]) == {} && TotalIn(w, vin[..0]) == Age(w, vin[..0]) == 0
    ensures Grown(dependers, dependers, k, {})
  {
  }

  /** One input of the scan. */
  lemma ScanNext(w: World, vin: seq<OutPoint>, i: nat)
    requires i < |vin| && Scannable(w, vin) && Complete(w, vin[..i])
    ensures Missing(w, vin[i]) ==> !Complete(w, vin) && Awaited(w, vin[..i]) == {}
    ensures !Missing(w, vin[i]) ==> Complete(w, vin[..i + 1]) && (OnDisk(w, vin[i]) || InPool(w, vin[i]))
    ensures Awaited(w, vin[..i + 1]) == Awaited(w, vin[..i]) + if OnDisk(w, vin[i]) then {} else {vin[i].hash}
    ensures TotalIn(w, vin[..i + 1]) == TotalIn(w, vin[..i]) + InputValue(w, vin[i])
    ensures Age(w, vin[..i + 1]) == Age(w, vin[..i]) + if OnDisk(w, vin[i]) then InputValue(w, vin[i]) * w.cfg.depth(w.db[vin[i].hash]) else 0
  {
    hide Awaited;
    assert vin[..i + 1] == vin[..i] + [vin[i]] && vin[..i + 1][..i] == vin[..i];
    AwaitedSnoc(w, vin[..i], vin[i]);
    if Missing(w, vin[i]) {
      NothingAwaited(w, vin, i);
    }
  }

  lemma NothingAwaited(w: World, vin: seq<OutPoint>, i: nat)
    requires i < |vin| && Scannable(w, vin) && Complete(w, vin[..i]) && Missing(w, vin[i])
    ensures Awaited(w, vin[..i]) == {}
  {
    forall o | o in vin[..i]
      ensures OnDisk(w, o)
    {
      var j :| 0 <= j < i && vin[j] == o;
      var n := j + 1;
      forall m | 0 <= m < n ensures !Missing(w, vin[..n][m]) { assert vin[..i][m] == vin[m]; }
      assert Complete(w, vin[..n]);
      assert Missing(w, vin[i]);
    }
  }

  lemma AwaitedSnoc(w: World, vin: seq<OutPoint>, o: OutPoint)
    ensures Awaited(w, vin + [o]) == Awaited(w, vin) + if OnDisk(w, o) then {} else {o.hash}
  {
    forall h
      ensures h in Awaited(w, vin + [o]) <==> h in Awaited(w, vin) || (h == o.hash && !OnDisk(w, o))
    {
      if h in Awaited(w, vin) {
        var p :| p in vin && !OnDisk(w, p) && p.hash == h;
        assert p in vin + [o];
      }
      assert o in vin + [o];
    }
  }

  lemma GrowOne(dependers: Dependers, dependers': Dependers, k: nat, ids: set<Hash>, h: Hash, list: seq<nat>)
    requires Grown(dependers, dependers', k, ids) && list == if h in dependers' then dependers'[h] else []
    ensures Grown(dependers, dependers'[h := list + [k]], k, ids + {h})
  {
  }

  lemma NothingNew(dependers: Dependers, dependers': Dependers, k: nat)
    requires Grown(dependers, dependers', k, {})
    ensures dependers' == dependers
  {
  }

  // ----- admission

  /** When a transaction is admitted after the transactions `before`. */
  ghost predicate Admits(w: World, tx: Tx, before: seq<Tx>, byFee: bool)
    requires tx.size > 0
  {
    var ix, size, sigOps := After(w.db, before), SizeWith(before), SigOpsWith(w.env, before);
    && size + tx.size < w.cfg.maxSize
    && sigOps + tx.sigOps < w.env.maxSigOps
    && tx.time <= w.cfg.now && (w.cfg.proofOfStake ==> tx.time <= w.cfg.coinbaseTime)
    && !(byFee && FeeRateOf(w, tx) < w.cfg.minTxFee as real && size + tx.size >= w.cfg.minSize)
    && Fetchable(w.env, ix, w.disk, tx.vin)
    && FeeOf(ix, w.disk, tx) >= F.MinFee(size % 0x1_0000_0000, F.Block, 0)
    && sigOps + tx.sigOps + w.env.p2shSigOps(tx) < w.env.maxSigOps
    && ConnectInputsOk(w.env, ix, w.disk, tx)
  }

  /** mapTestPool and the running sums. */
  datatype Work = Work(vtx: seq<Tx>, testPool: Index, size: nat, sigOps: nat, fees: int, byFee: bool)

  ghost predicate SumsOk(w: World, k: Work) {
    && w.db + k.testPool == After(w.db, k.vtx)
    && k.size == SizeWith(k.vtx) && k.sigOps == SigOpsWith(w.env, k.vtx) && k.fees == FeesOf(w.db, w.disk, k.vtx)
  }

  /** From here on the queue is ordered by fee: the room for priority transactions is used up. */
  ghost predicate Switches(w: World, tx: Tx, before: seq<Tx>)
    requires tx.size > 0
  {
    var size, sigOps := SizeWith(before), SigOpsWith(w.env, before);
    && size + tx.size < w.cfg.maxSize && sigOps + tx.sigOps < w.env.maxSigOps
    && tx.time <= w.cfg.now && (w.cfg.proofOfStake ==> tx.time <= w.cfg.coinbaseTime)
    && (size + tx.size >= w.cfg.prioritySize || PriorityOf(w, tx) < (COIN * 144 / 250) as real)
  }

  /** How far the assembly is: the transactions so far, and whether the queue is ordered by fee. */
  datatype Stand = Stand(vtx: seq<Tx>, byFee: bool)

  /** What popping one transaction does. */
  ghost function Round(w: World, s: Stand, tx: Tx): Stand
    requires tx.size > 0
  {
    Stand(if Admits(w, tx, s.vtx, s.byFee) then s.vtx + [tx] else s.vtx, s.byFee || Switches(w, tx, s.vtx))
  }

  /** The assembly as a function of the order in which the queue is popped. */
  ghost function Replay(w: World, order: seq<Hash>): Stand {
    if order == [] then Stand([], w.cfg.prioritySize == 0)
    else
      var s, h := Replay(w, order[..|order| - 1]), order[|order| - 1];
      if h in w.pool && w.pool[h].size > 0 then Round(w, s, w.pool[h]) else s
  }

  /** Processes one popped transaction. */
  method TryAdd(db: TxDb, w: World, tx: Tx, priority: real, feePerKb: real, k: Work) returns (k': Work)
    requires db.View().txs == w.db && SumsOk(w, k) && !tx.IsCoinBase() && Scored(w, tx, priority, feePerKb)
    ensures SumsOk(w, k')
    ensures Stand(k'.vtx, k'.byFee) == Round(w, Stand(k.vtx, k.byFee), tx)
  {
    hide ConnectInputsOk, Mark, FeeOf, After, SizeWith, SigOpsWith, FeesOf, Fetchable, PriorityOf, FeeRateOf;
    k' := k;
    if k.size + tx.size >= w.cfg.maxSize {
      return;
    }
    var txSigOps := tx.sigOps;
    if k.sigOps + txSigOps >= w.env.maxSigOps {
      return;
    }
    if tx.time > w.cfg.now || (w.cfg.proofOfStake && tx.time > w.cfg.coinbaseTime) {
      return;
    }
    var minFee := F.MinFee(k.size % 0x1_0000_0000, F.Block, 0);
    if k.byFee && feePerKb < w.cfg.minTxFee as real && k.size + tx.size >= w.cfg.minSize {
      return;
    }
    if !k.byFee && (k.size + tx.size >= w.cfg.prioritySize || priority < (COIN * 144 / 250) as real) {
      k' := k'.(byFee := true);
    }
    var prevs := FetchInputs(db, w.env, w.disk, k.testPool, tx);
    if prevs.None? {
      return;
    }
    var valueIn := SumPrevs(w.env, prevs.value, tx.vin, w.db + k.testPool, w.disk);
    var fee := valueIn - SumOut(tx.vout);
    FeeIs(w, k, tx, fee);
    if fee < minFee {
      return;
    }
    txSigOps := txSigOps + w.env.p2shSigOps(tx);
    if k.sigOps + txSigOps >= w.env.maxSigOps {
      return;
    }
    var ok, testPool := ConnectInputs(w.env, prevs.value, k.testPool, tx, NOT_ON_DISK, w.db, w.disk);
    if !ok {
      return;
    }
    AfterOne(w, k.vtx, tx, testPool);
    k' := Work(k.vtx + [tx], testPool[tx.hash := FreshIndex(NOT_ON_DISK, |tx.vout|)], k.size + tx.size,
               k.sigOps + txSigOps, k.fees + fee, k'.byFee);
  }

  lemma FeeIs(w: World, k: Work, tx: Tx, fee: int)
    requires SumsOk(w, k) && fee == ValueIn(w.db + k.testPool, w.disk, tx.vin) - SumOut(tx.vout)
    ensures fee == FeeOf(After(w.db, k.vtx), w.disk, tx)
  {
  }

  lemma AfterOne(w: World, vtx: seq<Tx>, tx: Tx, testPool: Index)
    requires !tx.IsCoinBase() && w.db + testPool == Mark(After(w.db, vtx), tx.vin, NOT_ON_DISK)
    ensures w.db + testPool[tx.hash := FreshIndex(NOT_ON_DISK, |tx.vout|)] == After(w.db, vtx + [tx])
    ensures SizeWith(vtx + [tx]) == SizeWith(vtx) + tx.size
    ensures SigOpsWith(w.env, vtx + [tx]) == SigOpsWith(w.env, vtx) + tx.sigOps + w.env.p2shSigOps(tx)
    ensures FeesOf(w.db, w.disk, vtx + [tx]) == FeesOf(w.db, w.disk, vtx) + FeeOf(After(w.db, vtx), w.disk, tx)
  {
    hide Mark;
    var fresh' := FreshIndex(NOT_ON_DISK, |tx.vout|);
    assert (vtx + [tx])[..|vtx|] == vtx;
    assert w.db + testPool[tx.hash := fresh'] == (w.db + testPool)[tx.hash := fresh'];
  }

  // ----- the scheduler's promise

  ghost predicate Chosen(w: World, vtx: seq<Tx>, i: nat)
    requires i < |vtx|
  {
    var tx := vtx[i];
    && tx.hash in w.pool && w.pool[tx.hash] == tx && tx.size > 0 && Wanted(w, tx)
    && Awaited(w, tx.vin) <= Ids(vtx[..i])
    && exists byFee :: Admits(w, tx, vtx[..i], byFee)
  }

  /** The order in the block: each transaction once, admitted, and after every parent it waited for. */
  ghost predicate WellOrdered(w: World, vtx: seq<Tx>) {
    DistinctIds(vtx) && forall i :: 0 <= i < |vtx| ==> Chosen(w, vtx, i)
  }

  predicate DistinctHashes(order: seq<Hash>) {
    forall i, j :: 0 <= i < j < |order| ==> order[i] != order[j]
  }

  /** The round in which a transaction was popped: no parent was outstanding. */
  ghost predicate PoppedReady(w: World, order: seq<Hash>, i: nat)
    requires i < |order|
  {
    && order[i] in w.pool && Wanted(w, w.pool[order[i]]) && w.pool[order[i]].hash == order[i] && w.pool[order[i]].size > 0
    && Awaited(w, w.pool[order[i]].vin) <= Ids(Replay(w, order[..i]).vtx)
  }

  /** A possible order of popping. */
  ghost predicate PopOrder(w: World, order: seq<Hash>) {
    DistinctHashes(order) && forall i :: 0 <= i < |order| ==> PoppedReady(w, order, i)
  }

  /** Nothing is forgotten: every wanted transaction was popped, unless a parent of it was left out. */
  ghost predicate NothingForgotten(w: World, order: seq<Hash>) {
    forall h :: h in w.pool && Wanted(w, w.pool[h]) ==> h in order || !(Awaited(w, w.pool[h].vin) <= Ids(Replay(w, order).vtx))
  }

  /** In the queue before the round after `order`: wanted, not popped yet, and with all its parents in the block. */
  ghost predicate Ready(w: World, order: seq<Hash>, h: Hash) {
    h in w.pool && w.pool[h].size > 0 && Wanted(w, w.pool[h]) && h !in order && Awaited(w, w.pool[h].vin) <= Ids(Replay(w, order).vtx)
  }

  /** A pays a higher rate than b, or has the higher priority, whichever counts at the time; the other decides ties. */
  predicate Outranks(w: World, byFee: bool, a: Tx, b: Tx)
    requires a.size > 0 && b.size > 0
  {
    if byFee then FeeRateOf(w, a) > FeeRateOf(w, b) || (FeeRateOf(w, a) == FeeRateOf(w, b) && PriorityOf(w, a) > PriorityOf(w, b))
    else PriorityOf(w, a) > PriorityOf(w, b) || (PriorityOf(w, a) == PriorityOf(w, b) && FeeRateOf(w, a) > FeeRateOf(w, b))
  }

  /** The i-th popped transaction was outranked by none that was ready. */
  ghost predicate PoppedHighest(w: World, order: seq<Hash>, i: nat)
    requires i < |order|
  {
    order[i] in w.pool && w.pool[order[i]].size > 0 &&
    forall h :: Ready(w, order[..i], h) ==> !Outranks(w, Replay(w, order[..i]).byFee, w.pool[h], w.pool[order[i]])
  }

  /** The highest goes first, round by round. */
  ghost predicate HighestFirst(w: World, order: seq<Hash>) {
    forall i :: 0 <= i < |order| ==> PoppedHighest(w, order, i)
  }

  lemma OneMoreHighest(w: World, order: seq<Hash>, h: Hash)
    requires HighestFirst(w, order) && PoppedHighest(w, order + [h], |order|)
    ensures HighestFirst(w, order + [h])
  {
    hide Ready, Replay, Outranks;
    var more := order + [h];
    forall i | 0 <= i < |more|
      ensures PoppedHighest(w, more, i)
    {
      if i < |order| {
        assert PoppedHighest(w, order, i) && more[..i] == order[..i] && more[i] == order[i];
      }
    }
  }

  lemma ReplaySnoc(w: World, order: seq<Hash>, h: Hash)
    requires h in w.pool && w.pool[h].size > 0
    ensures Replay(w, order + [h]) == Round(w, Replay(w, order), w.pool[h])
  {
    assert (order + [h])[..|order|] == order;
  }

  lemma {:induction false} PopOrderPrefix(w: World, order: seq<Hash>, n: nat)
    requires PopOrder(w, order) && n <= |order|
    ensures PopOrder(w, order[..n])
  {
    hide Wanted, Awaited, Replay;
    forall i | 0 <= i < n
      ensures PoppedReady(w, order[..n], i)
    {
      assert order[..n][..i] == order[..i] && PoppedReady(w, order, i);
    }
  }

  /** Included transactions were popped. */
  lemma {:induction false} IncludedWerePopped(w: World, order: seq<Hash>)
    requires PopOrder(w, order)
    ensures forall h :: h in Ids(Replay(w, order).vtx) ==> h in order
  {
    hide Admits, Wanted, Awaited, Switches;
    if order != [] {
      var n := |order| - 1;
      PopOrderPrefix(w, order, n);
      IncludedWerePopped(w, order[..n]);
      assert PoppedReady(w, order, n);
      IdsSnoc(Replay(w, order[..n]).vtx, w.pool[order[n]]);
    }
  }

  /** The block only grows. */
  lemma {:induction false} ReplayGrows(w: World, order: seq<Hash>, i: nat)
    requires i <= |order|
    ensures Replay(w, order[..i]).vtx <= Replay(w, order).vtx
    decreases |order|
  {
    hide Admits, Switches;
    if i < |order| {
      var n := |order| - 1;
      ReplayGrows(w, order[..n], i);
      assert order[..n][..i] == order[..i];
    } else {
      assert order[..i] == order;
    }
  }

  /** A popped transaction is in the block exactly if it was admitted in its own round, to the block and under the
      flag of that round; then it follows what was in the block at that time. */
  lemma {:induction false} IncludedIffAdmitted(w: World, order: seq<Hash>, i: nat)
    requires PopOrder(w, order) && i < |order|
    ensures order[i] in w.pool && w.pool[order[i]].size > 0
    ensures var at, tx := Replay(w, order[..i]), w.pool[order[i]];
            && (order[i] in Ids(Replay(w, order).vtx) <==> Admits(w, tx, at.vtx, at.byFee))
            && (Admits(w, tx, at.vtx, at.byFee) ==> at.vtx + [tx] <= Replay(w, order).vtx)
    decreases |order|
  {
    hide Admits, Wanted, Awaited, Switches, Replay, PopOrder;
    PoppedAt(w, order, i);
    var n := |order| - 1;
    PopOrderPrefix(w, order, n);
    PoppedAt(w, order, n);
    var last := w.pool[order[n]];
    ReplaySnoc(w, order[..n], order[n]);
    assert order == order[..n] + [order[n]];
    IdsSnoc(Replay(w, order[..n]).vtx, last);
    if i < n {
      IncludedIffAdmitted(w, order[..n], i);
      assert order[..n][..i] == order[..i];
    } else {
      IncludedWerePopped(w, order[..n]);
    }
  }

  lemma PoppedAt(w: World, order: seq<Hash>, i: nat)
    requires PopOrder(w, order) && i < |order|
    ensures PoppedReady(w, order, i) && order[i] !in order[..i]
  {
    assert PoppedReady(w, order, i);
    forall j | 0 <= j < i ensures order[..i][j] != order[i] { }
  }

  lemma StepOrdered(w: World, vtx: seq<Tx>, tx: Tx, byFee: bool)
    requires WellOrdered(w, vtx) && tx.hash in w.pool && w.pool[tx.hash] == tx && tx.size > 0 && Wanted(w, tx)
    requires Awaited(w, tx.vin) <= Ids(vtx) && tx.hash !in Ids(vtx) && Admits(w, tx, vtx, byFee)
    ensures WellOrdered(w, vtx + [tx])
  {
    hide Admits, Wanted, Awaited;
    var vtx' := vtx + [tx];
    forall i | 0 <= i < |vtx'|
      ensures Chosen(w, vtx', i)
    {
      if i < |vtx| {
        assert Chosen(w, vtx, i) && vtx'[..i] == vtx[..i];
      } else {
        assert vtx'[..i] == vtx;
      }
    }
    forall i | 0 <= i < |vtx|
      ensures vtx[i].hash != tx.hash
    {
      assert vtx[i].hash in Ids(vtx);
    }
  }

  /** Whatever the order of popping, the block is well ordered. */
  lemma {:induction false} ReplayIsWellOrdered(w: World, order: seq<Hash>)
    requires PopOrder(w, order)
    ensures WellOrdered(w, Replay(w, order).vtx)
  {
    hide Admits, Wanted, Awaited, Switches, WellOrdered, PopOrder;
    if order == [] {
      EmptyIsOrdered(w);
    } else {
      var n := |order| - 1;
      PopOrderPrefix(w, order, n);
      ReplayIsWellOrdered(w, order[..n]);
      PoppedAt(w, order, n);
      IncludedWerePopped(w, order[..n]);
      var s, tx := Replay(w, order[..n]), w.pool[order[n]];
      if Admits(w, tx, s.vtx, s.byFee) {
        StepOrdered(w, s.vtx, tx, s.byFee);
      }
    }
  }

  lemma EmptyIsOrdered(w: World)
    ensures WellOrdered(w, [])
  {
  }

  // ----- the scheduler's invariant

  ghost predicate OrphanOk(w: World, vtx: seq<Tx>, o: Orphan) {
    && o.tx in w.pool && Wanted(w, w.pool[o.tx])
    && o.waits == Awaited(w, w.pool[o.tx].vin) - Ids(vtx)
    && Scored(w, w.pool[o.tx], o.priority, o.feePerKb)
  }

  ghost predicate EntryOk(w: World, vtx: seq<Tx>, e: Entry) {
    && e.tx in w.pool && Wanted(w, w.pool[e.tx])
    && Awaited(w, w.pool[e.tx].vin) <= Ids(vtx)
    && Scored(w, w.pool[e.tx], e.priority, e.feePerKb)
  }

  ghost predicate Pending(orphans: seq<Orphan>, h: Hash) {
    exists k :: 0 <= k < |orphans| && orphans[k].tx == h && orphans[k].waits != {}
  }

  ghost predicate Queued(queue: seq<Entry>, h: Hash) {
    exists k :: 0 <= k < |queue| && queue[k].tx == h
  }

  ghost predicate Accounted(w: World, order: seq<Hash>, orphans: seq<Orphan>, queue: seq<Entry>, scope: set<Hash>) {
    forall h :: h in scope && h in w.pool && Wanted(w, w.pool[h]) ==> h in order || Pending(orphans, h) || Queued(queue, h)
  }

  ghost predicate Unpopped(order: seq<Hash>, queue: seq<Entry>) {
    forall k :: 0 <= k < |queue| ==> queue[k].tx !in order
  }

  /** What holds each time around the loop; `scope` are the pool transactions looked at so far. */
  ghost predicate Scheduled(w: World, order: seq<Hash>, vtx: seq<Tx>, orphans: seq<Orphan>, dependers: Dependers, queue: seq<Entry>,
                            seen: set<Hash>, scope: set<Hash>)
  {
    && DependersOk(orphans, dependers) && QueueOk(queue, seen) && WaitingOk(orphans, seen)
    && (forall i :: 0 <= i < |order| ==> order[i] in seen) && Unpopped(order, queue) && seen <= scope
    && (forall k :: 0 <= k < |orphans| ==> OrphanOk(w, vtx, orphans[k]) && orphans[k].tx in scope)
    && (forall k :: 0 <= k < |queue| ==> EntryOk(w, vtx, queue[k]))
    && Accounted(w, order, orphans, queue, scope)
  }

  // ----- scanning the pool

  lemma NothingScanned(w: World)
    ensures Scheduled(w, [], [], [], map[], [], {}, {})
  {
  }

  lemma ScannedUnwanted(w: World, orphans: seq<Orphan>, dependers: Dependers, queue: seq<Entry>, seen: set<Hash>, scope: set<Hash>, h: Hash)
    requires Scheduled(w, [], [], orphans, dependers, queue, seen, scope) && h in w.pool && !Wanted(w, w.pool[h])
    ensures Scheduled(w, [], [], orphans, dependers, queue, seen, scope + {h})
  {
    hide DependersOk, QueueOk, WaitingOk, Wanted, OrphanOk, EntryOk, Pending, Queued;
  }

  lemma ScannedReady(w: World, orphans: seq<Orphan>, dependers: Dependers, queue: seq<Entry>, seen: set<Hash>, scope: set<Hash>, e: Entry)
    requires Scheduled(w, [], [], orphans, dependers, queue, seen, scope) && e.tx !in scope && EntryOk(w, [], e)
    ensures Scheduled(w, [], [], orphans, dependers, queue + [e], seen + {e.tx}, scope + {e.tx})
  {
    hide DependersOk, Wanted, OrphanOk, EntryOk, Pending;
    var queue' := queue + [e];
    forall h | h in scope + {e.tx} && h in w.pool && Wanted(w, w.pool[h])
      ensures Pending(orphans, h) || Queued(queue', h)
    {
      if h == e.tx {
        assert queue'[|queue|] == e;
      } else if Queued(queue, h) {
        var k :| 0 <= k < |queue| && queue[k].tx == h;
        assert queue'[k].tx == h;
      }
    }
  }

  lemma ScannedOrphan(w: World, orphans: seq<Orphan>, dependers: Dependers, queue: seq<Entry>, seen: set<Hash>, scope: set<Hash>,
                      o: Orphan, dependers': Dependers)
    requires Scheduled(w, [], [], orphans, dependers, queue, seen, scope) && o.tx !in scope && OrphanOk(w, [], o) && o.waits != {}
    requires Grown(dependers, dependers', |orphans|, o.waits)
    ensures Scheduled(w, [], [], orphans + [o], dependers', queue, seen, scope + {o.tx})
  {
    hide DependersOk, Grown, Wanted, OrphanOk, EntryOk, Queued;
    Enlist(orphans, dependers, o, dependers');
    var orphans' := orphans + [o];
    forall h | h in scope + {o.tx} && h in w.pool && Wanted(w, w.pool[h])
      ensures Pending(orphans', h) || Queued(queue, h)
    {
      if h == o.tx {
        assert orphans'[|orphans|] == o;
      } else if Pending(orphans, h) {
        var k :| 0 <= k < |orphans| && orphans[k].tx == h && orphans[k].waits != {};
        assert orphans'[k] == orphans[k];
      }
    }
  }

  method ScanPool(db: TxDb, w: World) returns (orphans: seq<Orphan>, dependers: Dependers, queue: seq<Entry>, ghost seen: set<Hash>)
    requires db.View().txs == w.db && PoolOk(w)
    ensures Scheduled(w, [], [], orphans, dependers, queue, seen, w.pool.Keys)
  {
    hide Scheduled, Scored, Awaited, Grown, Complete, Scannable;
    orphans, dependers, queue, seen := [], map[], [], {};
    var todo := w.pool.Keys;
    NothingScanned(w);
    ghost var scope: set<Hash> := {};
    while exists h :: h in todo
      invariant scope == w.pool.Keys - todo && todo <= w.pool.Keys
      invariant Scheduled(w, [], [], orphans, dependers, queue, seen, scope)
      decreases |todo|
    {
      var h :| h in todo;
      var tx := w.pool[h];
      if !Ordinary(w, tx) {
        ScannedUnwanted(w, orphans, dependers, queue, seen, scope, h);
      } else {
        var ok, waits, dependers', priority, feePerKb := ScanInputs(db, w, tx, dependers, |orphans|);
        if !ok {
          ScannedUnwanted(w, orphans, dependers, queue, seen, scope, h);
        } else if waits != {} {
          var o := Orphan(h, waits, priority, feePerKb);
          ScannedOrphan(w, orphans, dependers, queue, seen, scope, o, dependers');
          orphans, dependers := orphans + [o], dependers';
        } else {
          var e := Entry(h, priority, feePerKb);
          ScannedReady(w, orphans, dependers, queue, seen, scope, e);
          queue := queue + [e];
          seen := seen + {h};
          NothingNew(dependers, dependers', |orphans|);
          dependers := dependers';
        }
      }
      todo := todo - {h};
      scope := scope + {h};
    }
    assert scope == w.pool.Keys;
  }

  // ----- one step of the assembly

  /** Popping keeps everything but the place of the popped transaction. */
  lemma StepPopped(w: World, order: seq<Hash>, vtx: seq<Tx>, orphans: seq<Orphan>, dependers: Dependers, queue: seq<Entry>, seen: set<Hash>,
                   k: nat)
    requires PoolOk(w) && Scheduled(w, order, vtx, orphans, dependers, queue, seen, w.pool.Keys) && k < |queue|
    ensures Scheduled(w, order + [queue[k].tx], vtx, orphans, dependers, queue[..k] + queue[k + 1..], seen, w.pool.Keys)
  {
    hide DependersOk, WaitingOk, OrphanOk, EntryOk, Pending, Queued, Wanted;
    var rest, h := queue[..k] + queue[k + 1..], queue[k].tx;
    QueueFacts(w, order, vtx, orphans, dependers, queue, seen, k);
    Pop(queue, seen, k);
    RestQueued(queue, k);
    forall i | 0 <= i < |rest|
      ensures EntryOk(w, vtx, rest[i]) && rest[i].tx !in order + [h]
    {
      assert rest[i] == queue[if i < k then i else i + 1];
      assert rest[i] in rest;
    }
  }

  lemma RestQueued(queue: seq<Entry>, k: nat)
    requires k < |queue|
    ensures forall h :: Queued(queue, h) && h != queue[k].tx ==> Queued(queue[..k] + queue[k + 1..], h)
  {
    var rest := queue[..k] + queue[k + 1..];
    forall h | Queued(queue, h) && h != queue[k].tx
      ensures Queued(rest, h)
    {
      var i :| 0 <= i < |queue| && queue[i].tx == h;
      assert rest[if i < k then i else i - 1] == queue[i];
    }
  }

  lemma StillOrphan(w: World, vtx: seq<Tx>, tx: Tx, o: Orphan)
    requires OrphanOk(w, vtx, o)
    ensures OrphanOk(w, vtx + [tx], Relieved(o, tx.hash))
  {
    IdsSnoc(vtx, tx);
  }

  lemma StillEntry(w: World, vtx: seq<Tx>, tx: Tx, e: Entry)
    requires EntryOk(w, vtx, e)
    ensures EntryOk(w, vtx + [tx], e)
  {
    IdsSnoc(vtx, tx);
  }

  lemma NewEntry(w: World, vtx: seq<Tx>, orphans: seq<Orphan>, orphans': seq<Orphan>, e: Entry)
    requires |orphans'| == |orphans| && forall k :: 0 <= k < |orphans| ==> OrphanOk(w, vtx, orphans'[k])
    requires forall k :: 0 <= k < |orphans| ==> orphans'[k] == orphans[k].(waits := orphans'[k].waits)
    requires Woken(orphans, orphans', e)
    ensures EntryOk(w, vtx, e)
  {
    hide Scored, Awaited;
    var k: nat :| WokenAt(orphans, orphans', e, k);
    assert OrphanOk(w, vtx, orphans'[k]);
    var waits := orphans'[k].waits;
    forall x | x in Awaited(w, w.pool[e.tx].vin)
      ensures x in Ids(vtx)
    {
      assert x in Ids(vtx) || x in waits;
    }
  }

  /** Including the popped transaction and waking those that waited for it keeps the schedule. */
  lemma StepIncluded(w: World, order: seq<Hash>, vtx: seq<Tx>, orphans: seq<Orphan>, dependers: Dependers, queue: seq<Entry>, seen: set<Hash>,
                     tx: Tx, orphans': seq<Orphan>, queue': seq<Entry>, seen': set<Hash>)
    requires Scheduled(w, order, vtx, orphans, dependers, queue, seen, w.pool.Keys)
    requires |orphans'| == |orphans| && forall i :: 0 <= i < |orphans| ==> orphans'[i] == Relieved(orphans[i], tx.hash)
    requires DependersOk(orphans', dependers) && QueueOk(queue', seen') && WaitingOk(orphans', seen')
    requires queue <= queue' && seen <= seen' <= w.pool.Keys
    requires forall i :: |queue| <= i < |queue'| ==> Woken(orphans, orphans', queue'[i]) && queue'[i].tx !in seen
    requires forall i :: 0 <= i < |orphans| && orphans[i].waits != {} && orphans'[i].waits == {} ==> AsEntry(orphans[i]) in queue'
    ensures Scheduled(w, order, vtx + [tx], orphans', dependers, queue', seen', w.pool.Keys)
  {
    hide DependersOk, WaitingOk, OrphanOk, EntryOk, Wanted, Woken, Pending, Queued, QueueOk;
    var vtx' := vtx + [tx];
    forall i | 0 <= i < |orphans|
      ensures OrphanOk(w, vtx', orphans'[i]) && orphans'[i].tx in w.pool.Keys
    {
      StillOrphan(w, vtx, tx, orphans[i]);
    }
    forall i | 0 <= i < |queue'|
      ensures EntryOk(w, vtx', queue'[i]) && queue'[i].tx !in order
    {
      if i < |queue| {
        assert queue'[i] == queue[i];
        StillEntry(w, vtx, tx, queue[i]);
      } else {
        NewEntry(w, vtx', orphans, orphans', queue'[i]);
      }
    }
    forall x | x in w.pool && Wanted(w, w.pool[x])
      ensures x in order || Pending(orphans', x) || Queued(queue', x)
    {
      if Pending(orphans, x) {
        StillPending(orphans, orphans', queue', tx.hash, x);
      } else if Queued(queue, x) {
        QueuedGrows(queue, queue', x);
      }
    }
  }

  lemma StillPending(orphans: seq<Orphan>, orphans': seq<Orphan>, queue': seq<Entry>, h: Hash, x: Hash)
    requires |orphans'| == |orphans| && forall i :: 0 <= i < |orphans| ==> orphans'[i] == Relieved(orphans[i], h)
    requires forall i :: 0 <= i < |orphans| && orphans[i].waits != {} && orphans'[i].waits == {} ==> AsEntry(orphans[i]) in queue'
    requires Pending(orphans, x)
    ensures Pending(orphans', x) || Queued(queue', x)
  {
    var i :| 0 <= i < |orphans| && orphans[i].tx == x && orphans[i].waits != {};
    if orphans'[i].waits == {} {
      var j :| 0 <= j < |queue'| && queue'[j] == AsEntry(orphans[i]);
    }
  }

  lemma QueuedGrows(queue: seq<Entry>, queue': seq<Entry>, x: Hash)
    requires queue <= queue' && Queued(queue, x)
    ensures Queued(queue', x)
  {
    var i :| 0 <= i < |queue| && queue[i].tx == x;
    assert queue'[i] == queue[i];
  }

  lemma Done(w: World, order: seq<Hash>, orphans: seq<Orphan>, dependers: Dependers, seen: set<Hash>)
    requires Scheduled(w, order, Replay(w, order).vtx, orphans, dependers, [], seen, w.pool.Keys)
    ensures NothingForgotten(w, order)
  {
    hide Wanted, Awaited, Scored, Replay;
    forall h | h in w.pool && Wanted(w, w.pool[h])
      ensures h in order || !(Awaited(w, w.pool[h].vin) <= Ids(Replay(w, order).vtx))
    {
      if Pending(orphans, h) {
        var k :| 0 <= k < |orphans| && orphans[k].tx == h && orphans[k].waits != {};
        assert OrphanOk(w, Replay(w, order).vtx, orphans[k]);
      }
    }
  }

  // ----- CreateNewBlock

  /** Whatever is ready is queued, so the top of the queue is outranked by nothing that is ready. */
  lemma TopIsHighest(w: World, order: seq<Hash>, byFee: bool, orphans: seq<Orphan>, dependers: Dependers, queue: seq<Entry>,
                     seen: set<Hash>, top: nat)
    requires PoolOk(w) && Scheduled(w, order, Replay(w, order).vtx, orphans, dependers, queue, seen, w.pool.Keys)
    requires byFee == Replay(w, order).byFee && top < |queue| && forall i :: 0 <= i < |queue| ==> !ComesAfter(byFee, queue[top], queue[i])
    ensures PoppedHighest(w, order + [queue[top].tx], |order|)
  {
    hide Replay, DependersOk, QueueOk, WaitingOk, Wanted, Awaited, PriorityOf, FeeRateOf, PoolOk;
    var vtx, more := Replay(w, order).vtx, order + [queue[top].tx];
    assert more[..|order|] == order;
    assert EntryOk(w, vtx, queue[top]);
    forall h | Ready(w, order, h)
      ensures !Outranks(w, byFee, w.pool[h], w.pool[queue[top].tx])
    {
      ReadyIsQueued(w, order, vtx, orphans, dependers, queue, seen, h);
      var i :| 0 <= i < |queue| && queue[i].tx == h;
      assert EntryOk(w, vtx, queue[i]);
    }
  }

  lemma ReadyIsQueued(w: World, order: seq<Hash>, vtx: seq<Tx>, orphans: seq<Orphan>, dependers: Dependers, queue: seq<Entry>,
                      seen: set<Hash>, h: Hash)
    requires Scheduled(w, order, vtx, orphans, dependers, queue, seen, w.pool.Keys)
    requires h in w.pool && Wanted(w, w.pool[h]) && h !in order && Awaited(w, w.pool[h].vin) <= Ids(vtx)
    ensures Queued(queue, h)
  {
    hide DependersOk, QueueOk, WaitingOk, Wanted, Scored;
    if Pending(orphans, h) {
      var k :| 0 <= k < |orphans| && orphans[k].tx == h && orphans[k].waits != {};
      StillWaits(w, vtx, orphans[k]);
    }
  }

  lemma StillWaits(w: World, vtx: seq<Tx>, o: Orphan)
    requires OrphanOk(w, vtx, o) && o.waits != {}
    ensures !(Awaited(w, w.pool[o.tx].vin) <= Ids(vtx))
  {
  }

  /** Collects pool transactions, the highest first. It ends, since every round removes one transaction from those queued
      or waiting; the block is the one that order of popping gives. */
  method CollectTransactions(db: TxDb, w: World) returns (k: Work, ghost order: seq<Hash>)
    requires db.View().txs == w.db && PoolOk(w)
    ensures SumsOk(w, k) && Stand(k.vtx, k.byFee) == Replay(w, order)
    ensures PopOrder(w, order) && NothingForgotten(w, order) && HighestFirst(w, order)
  {
    hide SumsOk, Scheduled, Admits, Switches, Waiting, NothingForgotten, DependersOk, QueueOk, WaitingOk, PopOrder, Replay, HighestFirst,
         PoppedHighest, ComesAfter;
    var orphans, dependers, queue, seen := ScanPool(db, w);
    k, order := Work([], map[], 1000, 100, 0, w.cfg.prioritySize == 0), [];
    NoTransactions(w, k);
    while queue != []
      invariant SumsOk(w, k) && Stand(k.vtx, k.byFee) == Replay(w, order) && PopOrder(w, order) && HighestFirst(w, order)
      invariant Scheduled(w, order, k.vtx, orphans, dependers, queue, seen, w.pool.Keys)
      decreases |Waiting(orphans)| + |queue|
    {
      var i := Top(queue, k.byFee);
      var e := queue[i];
      TopIsHighest(w, order, k.byFee, orphans, dependers, queue, seen, i);
      QueueFacts(w, order, k.vtx, orphans, dependers, queue, seen, i);
      var tx := w.pool[e.tx];
      ghost var vtx := k.vtx;
      var k' := TryAdd(db, w, tx, e.priority, e.feePerKb, k);
      ReplaySnoc(w, order, e.tx);
      OneMorePopped(w, order, e.tx);
      OneMoreHighest(w, order, e.tx);
      StepPopped(w, order, vtx, orphans, dependers, queue, seen, i);
      queue := queue[..i] + queue[i + 1..];
      order := order + [e.tx];
      if |k'.vtx| != |k.vtx| {
        ScheduleFacts(w, order, vtx, orphans, dependers, queue, seen);
        var orphans', queue';
        ghost var seen';
        orphans', queue', seen' := Wake(orphans, dependers, queue, e.tx, seen);
        SeenInPool(w, order, vtx, orphans, dependers, queue, seen, seen');
        StepIncluded(w, order, vtx, orphans, dependers, queue, seen, tx, orphans', queue', seen');
        orphans, queue, seen := orphans', queue', seen';
      }
      k := k';
    }
    Done(w, order, orphans, dependers, seen);
  }

  lemma OneMorePopped(w: World, order: seq<Hash>, h: Hash)
    requires PopOrder(w, order) && h !in order && h in w.pool && Wanted(w, w.pool[h]) && w.pool[h].hash == h && w.pool[h].size > 0
    requires Awaited(w, w.pool[h].vin) <= Ids(Replay(w, order).vtx)
    ensures PopOrder(w, order + [h])
  {
    hide Wanted, Awaited, Replay;
    var more := order + [h];
    forall i | 0 <= i < |more|
      ensures PoppedReady(w, more, i)
    {
      if i < |order| {
        assert more[..i] == order[..i] && PoppedReady(w, order, i);
      } else {
        assert more[..i] == order;
      }
    }
  }

  lemma NoTransactions(w: World, k: Work)
    requires k.vtx == [] && k.testPool == map[] && k.size == 1000 && k.sigOps == 100 && k.fees == 0
    ensures SumsOk(w, k) && Replay(w, []) == Stand([], w.cfg.prioritySize == 0) && PopOrder(w, []) && HighestFirst(w, [])
  {
    assert w.db + map[] == w.db;
  }

  lemma QueueFacts(w: World, order: seq<Hash>, vtx: seq<Tx>, orphans: seq<Orphan>, dependers: Dependers, queue: seq<Entry>, seen: set<Hash>,
                   i: nat)
    requires PoolOk(w) && Scheduled(w, order, vtx, orphans, dependers, queue, seen, w.pool.Keys) && i < |queue|
    ensures queue[i].tx in seen && queue[i].tx in w.pool && queue[i].tx !in order
    ensures EntryOk(w, vtx, queue[i]) && w.pool[queue[i].tx].hash == queue[i].tx && w.pool[queue[i].tx].size > 0
    ensures !w.pool[queue[i].tx].IsCoinBase()
  {
    assert EntryOk(w, vtx, queue[i]);
  }

  lemma ScheduleFacts(w: World, order: seq<Hash>, vtx: seq<Tx>, orphans: seq<Orphan>, dependers: Dependers, queue: seq<Entry>, seen: set<Hash>)
    requires Scheduled(w, order, vtx, orphans, dependers, queue, seen, w.pool.Keys)
    ensures DependersOk(orphans, dependers) && WaitingOk(orphans, seen) && QueueOk(queue, seen)
  {
  }

  lemma SeenInPool(w: World, order: seq<Hash>, vtx: seq<Tx>, orphans: seq<Orphan>, dependers: Dependers, queue: seq<Entry>, seen: set<Hash>,
                   seen': set<Hash>)
    requires Scheduled(w, order, vtx, orphans, dependers, queue, seen, w.pool.Keys)
    requires forall h :: h in seen' ==> h in seen || exists k :: 0 <= k < |orphans| && orphans[k].tx == h
    ensures seen' <= w.pool.Keys
  {
    hide OrphanOk, EntryOk, DependersOk, QueueOk, WaitingOk, Accounted;
    forall h | h in seen'
      ensures h in w.pool.Keys
    {
      if h !in seen {
        var k :| 0 <= k < |orphans| && orphans[k].tx == h;
        assert orphans[k].tx in w.pool.Keys;
      }
    }
  }
}
