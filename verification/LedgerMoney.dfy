/** Conservation: the index of a list of transactions records each spending exactly once, and the value
    of its unspent outputs moves by outputs minus inputs. */
module LedgerMoney {
  import opened Primitives
  import opened LedgerSpec

  type Disk = map<DiskTxPos, Tx>

  /** How many inputs of the listed transactions spend `o`. */
  ghost function SpendCount(txs: seq<Tx>, o: OutPoint): nat {
    if txs == [] then 0
    else
      var last := txs[|txs| - 1];
      SpendCount(txs[..|txs| - 1], o) + if last.IsCoinBase() then 0 else multiset(last.vin)[o]
  }

  ghost predicate EntryOf(ix: Index, disk: Disk, tx: Tx) {
    && tx.hash in ix
    && ix[tx.hash].pos in disk
    && disk[ix[tx.hash].pos] == tx
    && |ix[tx.hash].spent| == |tx.vout|
  }

  /** The index holds exactly the listed transactions and marks spent exactly what they spend, once. */
  ghost predicate Reflects(txs: seq<Tx>, ix: Index, disk: Disk) {
    && DistinctIds(txs)
    && ix.Keys == Ids(txs)
    && (forall i :: 0 <= i < |txs| ==> EntryOf(ix, disk, txs[i]))
    && (forall o :: InRange(ix, o) ==> SpendCount(txs, o) == if IsUnspent(ix, o) then 0 else 1)
    && (forall o :: SpendCount(txs, o) > 0 ==> InRange(ix, o))
  }

  function UnspentValue(spent: seq<DiskTxPos>, outs: seq<TxOut>, k: nat): int
    requires k <= |spent| == |outs|
  {
    if k == 0 then 0
    else UnspentValue(spent, outs, k - 1) + if spent[k - 1] == Null then outs[k - 1].value else 0
  }

  predicate Covers(ix: Index, txs: seq<Tx>) {
    forall i :: 0 <= i < |txs| ==> txs[i].hash in ix && |ix[txs[i].hash].spent| == |txs[i].vout|
  }

  /** The total value of the unspent outputs of the listed transactions. */
  function TotalUnspent(ix: Index, txs: seq<Tx>): int
    requires Covers(ix, txs)
  {
    if txs == [] then 0
    else
      var last := txs[|txs| - 1];
      TotalUnspent(ix, txs[..|txs| - 1]) + UnspentValue(ix[last.hash].spent, last.vout, |last.vout|)
  }

  /** The value GetOutputFor finds for an input. */
  function OutValue(ix: Index, disk: Disk, o: OutPoint): int {
    if o.hash in ix && ix[o.hash].pos in disk && o.n < |disk[ix[o.hash].pos].vout|
    then disk[ix[o.hash].pos].vout[o.n].value else 0
  }

  /** GetValueMapIn. */
  function ValueIn(ix: Index, disk: Disk, vin: seq<OutPoint>): int {
    if vin == [] then 0
    else ValueIn(ix, disk, vin[..|vin| - 1]) + OutValue(ix, disk, vin[|vin| - 1])
  }

  // ----- counting

  lemma SpendCountSnoc(txs: seq<Tx>, tx: Tx, o: OutPoint)
    ensures SpendCount(txs + [tx], o) == SpendCount(txs, o) + if tx.IsCoinBase() then 0 else multiset(tx.vin)[o]
  {
    assert (txs + [tx])[..|txs|] == txs;
  }

  lemma {:induction false} DistinctCount(vin: seq<OutPoint>, o: OutPoint)
    requires Distinct(vin)
    ensures multiset(vin)[o] == if o in vin then 1 else 0
  {
    if vin != [] {
      var init := vin[..|vin| - 1];
      DistinctCount(init, o);
      assert vin == init + [vin[|vin| - 1]];
    }
  }

  lemma IdsSnoc(txs: seq<Tx>, tx: Tx)
    ensures Ids(txs + [tx]) == Ids(txs) + {tx.hash}
  {
    forall h | h in Ids(txs)
      ensures h in Ids(txs + [tx])
    {
      var i :| 0 <= i < |txs| && txs[i].hash == h;
      assert (txs + [tx])[i].hash == h;
    }
    assert (txs + [tx])[|txs|] == tx;
  }

  /** Connecting a new transaction at its place on disk keeps the index exact. */
  lemma ConnectReflects(txs: seq<Tx>, ix: Index, disk: Disk, tx: Tx, pos: DiskTxPos)
    requires Reflects(txs, ix, disk)
    requires tx.hash !in ix && pos.Pos? && pos in disk && disk[pos] == tx
    requires tx.IsCoinBase() || InputsSpendable(ix, tx.vin)
    ensures Reflects(txs + [tx], ConnectTx(ix, tx, pos), disk)
  {
    var ix', txs' := ConnectTx(ix, tx, pos), txs + [tx];
    IdsSnoc(txs, tx);
    forall i | 0 <= i < |txs|
      ensures EntryOf(ix', disk, txs[i]) && txs[i].hash != tx.hash
    {
      assert EntryOf(ix, disk, txs[i]);
      MarkAt(ix, tx.vin, pos, txs[i].hash);
    }
    assert forall i :: 0 <= i < |txs'| ==> txs'[i] == if i < |txs| then txs[i] else tx;
    forall o
      ensures SpendCount(txs', o) > 0 ==> InRange(ix', o)
      ensures InRange(ix', o) ==> SpendCount(txs', o) == if IsUnspent(ix', o) then 0 else 1
    {
      ConnectCounts(txs, ix, disk, tx, pos, o);
    }
  }

  lemma ConnectCounts(txs: seq<Tx>, ix: Index, disk: Disk, tx: Tx, pos: DiskTxPos, o: OutPoint)
    requires Reflects(txs, ix, disk)
    requires tx.hash !in ix && pos.Pos?
    requires tx.IsCoinBase() || InputsSpendable(ix, tx.vin)
    ensures var ix', txs' := ConnectTx(ix, tx, pos), txs + [tx];
            (SpendCount(txs', o) > 0 ==> InRange(ix', o)) &&
            (InRange(ix', o) ==> SpendCount(txs', o) == if IsUnspent(ix', o) then 0 else 1)
  {
    SpendCountSnoc(txs, tx, o);
    MarkAt(ix, tx.vin, pos, o.hash);
    if !tx.IsCoinBase() {
      DistinctCount(tx.vin, o);
      assert o in tx.vin ==> IsUnspent(ix, o);
    }
  }

  // ----- value

  lemma {:induction false} UnspentValueUpdate(spent: seq<DiskTxPos>, outs: seq<TxOut>, k: nat, n: nat, mark: DiskTxPos)
    requires k <= |spent| == |outs| && n < |spent| && spent[n] == Null && mark != Null
    ensures UnspentValue(spent[n := mark], outs, k) == UnspentValue(spent, outs, k) - if n < k then outs[n].value else 0
  {
    if k > 0 {
      UnspentValueUpdate(spent, outs, k - 1, n, mark);
    }
  }

  lemma {:induction false} UnspentValueFresh(outs: seq<TxOut>, k: nat)
    requires k <= |outs|
    ensures UnspentValue(seq(|outs|, _ => Null), outs, k) == SumOut(outs[..k])
  {
    if k > 0 {
      UnspentValueFresh(outs, k - 1);
      assert outs[..k][..k - 1] == outs[..k - 1];
    }
  }

  /** Entries of other transactions do not matter to a total. */
  lemma {:induction false} TotalElsewhere(ix: Index, txs: seq<Tx>, h: Hash, entry: TxIndex)
    requires Covers(ix, txs)
    requires forall i :: 0 <= i < |txs| ==> txs[i].hash != h
    ensures Covers(ix[h := entry], txs) && TotalUnspent(ix[h := entry], txs) == TotalUnspent(ix, txs)
  {
    if txs != [] {
      TotalElsewhere(ix, txs[..|txs| - 1], h, entry);
    }
  }

  /** Spending one unspent output lowers the total by its value. */
  lemma {:induction false} TotalSpendOne(ix: Index, txs: seq<Tx>, i: nat, n: nat, mark: DiskTxPos)
    requires Covers(ix, txs) && DistinctIds(txs) && i < |txs| && n < |txs[i].vout| && mark != Null
    requires ix[txs[i].hash].spent[n] == Null
    ensures var e := ix[txs[i].hash];
            var ix' := ix[txs[i].hash := e.(spent := e.spent[n := mark])];
            Covers(ix', txs) && TotalUnspent(ix', txs) == TotalUnspent(ix, txs) - txs[i].vout[n].value
  {
    var e := ix[txs[i].hash];
    var init := txs[..|txs| - 1];
    if i == |txs| - 1 {
      TotalElsewhere(ix, init, txs[i].hash, e.(spent := e.spent[n := mark]));
      UnspentValueUpdate(e.spent, txs[i].vout, |txs[i].vout|, n, mark);
    } else {
      TotalSpendOne(ix, init, i, n, mark);
    }
  }

  lemma MarkCovers(ix: Index, txs: seq<Tx>, vin: seq<OutPoint>, mark: DiskTxPos)
    requires Covers(ix, txs)
    ensures Covers(Mark(ix, vin, mark), txs)
  {
  }

  lemma {:induction false} TotalSpendAll(txs: seq<Tx>, ix: Index, disk: Disk, vin: seq<OutPoint>, mark: DiskTxPos)
    requires Reflects(txs, ix, disk) && InputsSpendable(ix, vin) && mark != Null
    ensures Covers(ix, txs) && Covers(Mark(ix, vin, mark), txs)
    ensures TotalUnspent(Mark(ix, vin, mark), txs) == TotalUnspent(ix, txs) - ValueIn(ix, disk, vin)
  {
    assert Covers(ix, txs) by {
      assert forall i :: 0 <= i < |txs| ==> EntryOf(ix, disk, txs[i]);
    }
    MarkCovers(ix, txs, vin, mark);
    if vin == [] {
      MarkNothing(ix, mark);
    } else {
      var init, o := vin[..|vin| - 1], vin[|vin| - 1];
      assert vin == init + [o];
      TotalSpendAll(txs, ix, disk, init, mark);
      assert IsUnspent(ix, o) && o !in init;
      MarkSnoc(ix, init, o, mark);
      MarkAt(ix, init, mark, o.hash);
      var i :| 0 <= i < |txs| && txs[i].hash == o.hash;
      assert EntryOf(ix, disk, txs[i]);
      TotalSpendOne(Mark(ix, init, mark), txs, i, o.n, mark);
    }
  }

  lemma MarkNothing(ix: Index, mark: DiskTxPos)
    ensures Mark(ix, [], mark) == ix
  {
    forall h | h in ix
      ensures Mark(ix, [], mark)[h] == ix[h]
    {
      assert Mark(ix, [], mark)[h].spent == ix[h].spent;
    }
  }

  lemma ReflectsCovers(txs: seq<Tx>, ix: Index, disk: Disk, h: Hash)
    requires Reflects(txs, ix, disk) && h !in ix
    ensures Covers(ix, txs) && forall i :: 0 <= i < |txs| ==> txs[i].hash != h
  {
    assert forall i :: 0 <= i < |txs| ==> EntryOf(ix, disk, txs[i]);
  }

  /** The value a transaction consumes: nothing for a coinbase. */
  function Consumed(ix: Index, disk: Disk, tx: Tx): int {
    if tx.IsCoinBase() then 0 else ValueIn(ix, disk, tx.vin)
  }

  lemma FreshIsWorth(pos: DiskTxPos, outs: seq<TxOut>)
    ensures |FreshIndex(pos, |outs|).spent| == |outs|
    ensures UnspentValue(FreshIndex(pos, |outs|).spent, outs, |outs|) == SumOut(outs)
  {
    hide SumOut;
    UnspentValueFresh(outs, |outs|);
    assert outs[..|outs|] == outs;
    assert FreshIndex(pos, |outs|).spent == seq(|outs|, _ => Null);
  }

  lemma TotalWithFresh(ix: Index, txs: seq<Tx>, tx: Tx, pos: DiskTxPos)
    requires Covers(ix, txs) && forall i :: 0 <= i < |txs| ==> txs[i].hash != tx.hash
    ensures var ix' := ix[tx.hash := FreshIndex(pos, |tx.vout|)];
            Covers(ix', txs + [tx]) && TotalUnspent(ix', txs + [tx]) == TotalUnspent(ix, txs) + SumOut(tx.vout)
  {
    hide FreshIndex, UnspentValue, SumOut;
    var entry := FreshIndex(pos, |tx.vout|);
    FreshIsWorth(pos, tx.vout);
    TotalElsewhere(ix, txs, tx.hash, entry);
    assert (txs + [tx])[..|txs|] == txs && (txs + [tx])[|txs|] == tx;
  }

  /** Connecting a transaction moves the total of unspent outputs by its outputs minus its inputs. */
  lemma ConnectConserves(txs: seq<Tx>, ix: Index, disk: Disk, tx: Tx, pos: DiskTxPos)
    requires Reflects(txs, ix, disk)
    requires tx.hash !in ix && pos.Pos?
    requires tx.IsCoinBase() || InputsSpendable(ix, tx.vin)
    ensures var ix' := ConnectTx(ix, tx, pos);
            Covers(ix, txs) && Covers(ix', txs + [tx]) &&
            TotalUnspent(ix', txs + [tx]) == TotalUnspent(ix, txs) - Consumed(ix, disk, tx) + SumOut(tx.vout)
  {
    hide Reflects, Mark, InputsSpendable;
    ReflectsCovers(txs, ix, disk, tx.hash);
    var mid := if tx.IsCoinBase() then ix else Mark(ix, tx.vin, pos);
    if !tx.IsCoinBase() {
      TotalSpendAll(txs, ix, disk, tx.vin, pos);
    }
    TotalWithFresh(mid, txs, tx, pos);
  }
}
