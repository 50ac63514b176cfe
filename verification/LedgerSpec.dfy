/** What connecting and disconnecting transactions does to the transaction index, said without loops,
    and why disconnecting a block undoes connecting it. */
module LedgerSpec {
  import opened Primitives

  type Index = map<Hash, TxIndex>

  /** Overwrites the spent marks of the outputs of `h` that `vin` names. */
  function Marked(spent: seq<DiskTxPos>, h: Hash, vin: seq<OutPoint>, mark: DiskTxPos): seq<DiskTxPos> {
    seq(|spent|, n requires 0 <= n < |spent| => if OutPoint(h, n) in vin then mark else spent[n])
  }

  /** The index after every outpoint of `vin` was marked with `mark` (null: unmarked). */
  function Mark(ix: Index, vin: seq<OutPoint>, mark: DiskTxPos): Index {
    map h | h in ix :: ix[h].(spent := Marked(ix[h].spent, h, vin, mark))
  }

  predicate InRange(ix: Index, o: OutPoint) {
    o.hash in ix && o.n < |ix[o.hash].spent|
  }

  predicate IsUnspent(ix: Index, o: OutPoint) {
    InRange(ix, o) && ix[o.hash].spent[o.n] == Null
  }

  predicate Distinct<T(==)>(s: seq<T>) {
    forall i, j :: 0 <= i < j < |s| ==> s[i] != s[j]
  }

  /** Every input names an unspent output, and no output is named twice. */
  predicate InputsSpendable(ix: Index, vin: seq<OutPoint>) {
    Distinct(vin) && forall o :: o in vin ==> IsUnspent(ix, o)
  }

  ghost function Unspent(ix: Index): set<OutPoint> {
    set h, n | h in ix && 0 <= n < |ix[h].spent| && ix[h].spent[n] == Null :: OutPoint(h, n)
  }

  function FreshIndex(pos: DiskTxPos, outputs: nat): TxIndex {
    TxIndex(pos, seq(outputs, _ => Null))
  }

  function ConnectTx(ix: Index, tx: Tx, pos: DiskTxPos): Index {
    (if tx.IsCoinBase() then ix else Mark(ix, tx.vin, pos))[tx.hash := FreshIndex(pos, |tx.vout|)]
  }

  function ConnectTxs(ix: Index, vtx: seq<Tx>, at: seq<DiskTxPos>, k: nat): Index
    requires k <= |vtx| == |at|
  {
    if k == 0 then ix else ConnectTx(ConnectTxs(ix, vtx, at, k - 1), vtx[k - 1], at[k - 1])
  }

  predicate CanDisconnect(ix: Index, tx: Tx) {
    tx.IsCoinBase() || forall o :: o in tx.vin ==> InRange(ix, o)
  }

  function DisconnectTx(ix: Index, tx: Tx): Index {
    (if tx.IsCoinBase() then ix else Mark(ix, tx.vin, Null)) - {tx.hash}
  }

  /** Disconnects the first k transactions in reverse order; None as soon as one of them cannot be. */
  function DisconnectTxs(ix: Index, vtx: seq<Tx>, k: nat): Option<Index>
    requires k <= |vtx|
  {
    if k == 0 then Some(ix)
    else if !CanDisconnect(ix, vtx[k - 1]) then None
    else DisconnectTxs(DisconnectTx(ix, vtx[k - 1]), vtx, k - 1)
  }

  predicate FullySpent(ix: Index, h: Hash) {
    h in ix ==> forall n :: 0 <= n < |ix[h].spent| ==> ix[h].spent[n] != Null
  }

  predicate DistinctIds(vtx: seq<Tx>) {
    forall i, j :: 0 <= i < j < |vtx| ==> vtx[i].hash != vtx[j].hash
  }

  function Ids(vtx: seq<Tx>): set<Hash> {
    set i | 0 <= i < |vtx| :: vtx[i].hash
  }

  /** The structural core of acceptance: what every accepted block satisfies whatever the environment. */
  ghost predicate BlockSpends(ix: Index, vtx: seq<Tx>, at: seq<DiskTxPos>) {
    && |vtx| == |at|
    && DistinctIds(vtx)
    && (forall i :: 0 <= i < |at| ==> at[i].Pos?)
    && (forall i :: 0 <= i < |vtx| ==> FullySpent(ix, vtx[i].hash))
    && (forall i :: 0 <= i < |vtx| ==> SpendsAt(ix, vtx, at, i))
  }

  ghost predicate SpendsAt(ix: Index, vtx: seq<Tx>, at: seq<DiskTxPos>, i: nat)
    requires i < |vtx| == |at|
  {
    vtx[i].IsCoinBase() || InputsSpendable(ConnectTxs(ix, vtx, at, i), vtx[i].vin)
  }

  // ----- marking

  lemma MarkAt(ix: Index, vin: seq<OutPoint>, mark: DiskTxPos, h: Hash)
    ensures Mark(ix, vin, mark).Keys == ix.Keys
    ensures h in ix ==> Mark(ix, vin, mark)[h].pos == ix[h].pos
    ensures h in ix ==> |Mark(ix, vin, mark)[h].spent| == |ix[h].spent|
    ensures h in ix ==> forall n :: 0 <= n < |ix[h].spent| ==>
      Mark(ix, vin, mark)[h].spent[n] == if OutPoint(h, n) in vin then mark else ix[h].spent[n]
  {
  }

  /** Marking one more outpoint is a single in-place update. */
  lemma MarkSnoc(ix: Index, vin: seq<OutPoint>, o: OutPoint, mark: DiskTxPos)
    requires InRange(ix, o)
    ensures var m := Mark(ix, vin, mark);
            InRange(m, o) && Mark(ix, vin + [o], mark) == m[o.hash := m[o.hash].(spent := m[o.hash].spent[o.n := mark])]
  {
    var m := Mark(ix, vin, mark);
    var m' := m[o.hash := m[o.hash].(spent := m[o.hash].spent[o.n := mark])];
    forall h | h in ix
      ensures Mark(ix, vin + [o], mark)[h] == m'[h]
    {
      assert Mark(ix, vin + [o], mark)[h].spent == m'[h].spent;
    }
  }

  lemma UnmarkRestores(ix: Index, vin: seq<OutPoint>, mark: DiskTxPos)
    requires forall o :: o in vin ==> IsUnspent(ix, o)
    ensures Mark(Mark(ix, vin, mark), vin, Null) == ix
  {
    forall h | h in ix
      ensures Mark(Mark(ix, vin, mark), vin, Null)[h] == ix[h]
    {
      assert Mark(Mark(ix, vin, mark), vin, Null)[h].spent == ix[h].spent;
    }
  }

  /** Marks outside a set of ids do not depend on whether those ids are present. */
  lemma MarkMinus(ix: Index, vin: seq<OutPoint>, mark: DiskTxPos, gone: set<Hash>)
    ensures Mark(ix - gone, vin, mark) == Mark(ix, vin, mark) - gone
  {
  }

  // ----- the inverse

  lemma {:induction false} LaterIdsStaySpent(ix: Index, vtx: seq<Tx>, at: seq<DiskTxPos>, k: nat, j: nat)
    requires BlockSpends(ix, vtx, at) && k <= j < |vtx|
    ensures FullySpent(ConnectTxs(ix, vtx, at, k), vtx[j].hash)
  {
    if k > 0 {
      LaterIdsStaySpent(ix, vtx, at, k - 1, j);
      MarkAt(ConnectTxs(ix, vtx, at, k - 1), vtx[k - 1].vin, at[k - 1], vtx[j].hash);
    }
  }

  /** Disconnecting the k-th transaction, with the later ones already gone, gives back the index before it. */
  lemma DisconnectOne(ix: Index, vtx: seq<Tx>, at: seq<DiskTxPos>, k: nat)
    requires BlockSpends(ix, vtx, at) && 0 < k <= |vtx|
    ensures var gone := Ids(vtx[k..]);
            var after := ConnectTxs(ix, vtx, at, k) - gone;
            CanDisconnect(after, vtx[k - 1]) &&
            DisconnectTx(after, vtx[k - 1]) == ConnectTxs(ix, vtx, at, k - 1) - Ids(vtx[k - 1..])
  {
    var tx, gone, before := vtx[k - 1], Ids(vtx[k..]), ConnectTxs(ix, vtx, at, k - 1);
    assert Ids(vtx[k - 1..]) == gone + {tx.hash} by {
      assert vtx[k - 1..] == [tx] + vtx[k..];
      assert forall i :: 0 <= i < |vtx[k..]| ==> vtx[k..][i] == vtx[k - 1..][i + 1];
    }
    if tx.IsCoinBase() {
      return;
    }
    assert SpendsAt(ix, vtx, at, k - 1);
    forall o | o in tx.vin
      ensures o.hash !in gone + {tx.hash}
    {
      assert IsUnspent(before, o);
      forall j | k - 1 <= j < |vtx|
        ensures o.hash != vtx[j].hash
      {
        LaterIdsStaySpent(ix, vtx, at, k - 1, j);
      }
      assert forall i :: 0 <= i < |vtx[k..]| ==> vtx[k..][i] == vtx[k + i];
    }
    UnmarkAround(before, tx, at[k - 1], gone);
  }

  lemma UnmarkAround(before: Index, tx: Tx, pos: DiskTxPos, gone: set<Hash>)
    requires !tx.IsCoinBase() && InputsSpendable(before, tx.vin)
    requires forall o :: o in tx.vin ==> o.hash !in gone + {tx.hash}
    ensures CanDisconnect(ConnectTx(before, tx, pos) - gone, tx)
    ensures DisconnectTx(ConnectTx(before, tx, pos) - gone, tx) == before - (gone + {tx.hash})
  {
    var after := ConnectTx(before, tx, pos) - gone;
    var marked := Mark(before, tx.vin, pos);
    forall o | o in tx.vin
      ensures InRange(after, o)
    {
      MarkAt(before, tx.vin, pos, o.hash);
      assert IsUnspent(before, o);
    }
    assert after - {tx.hash} == marked - (gone + {tx.hash});
    MarkMinus(after, tx.vin, Null, {tx.hash});
    MarkMinus(marked, tx.vin, Null, gone + {tx.hash});
    UnmarkRestores(before, tx.vin, pos);
  }

  lemma {:induction false} DisconnectUndoesFrom(ix: Index, vtx: seq<Tx>, at: seq<DiskTxPos>, k: nat)
    requires BlockSpends(ix, vtx, at) && k <= |vtx|
    ensures DisconnectTxs(ConnectTxs(ix, vtx, at, k) - Ids(vtx[k..]), vtx, k) == Some(ix - Ids(vtx))
  {
    if k == 0 {
      assert vtx[0..] == vtx;
    } else {
      DisconnectOne(ix, vtx, at, k);
      DisconnectUndoesFrom(ix, vtx, at, k - 1);
    }
  }

  lemma DroppingSpentIds(ix: Index, ids: set<Hash>)
    requires forall h :: h in ids ==> FullySpent(ix, h)
    ensures Unspent(ix - ids) == Unspent(ix)
  {
    forall o | o in Unspent(ix)
      ensures o in Unspent(ix - ids)
    {
      if o.hash in ids {
        assert FullySpent(ix, o.hash);
      }
    }
  }

  /** Disconnecting a just-connected block always succeeds. It leaves the old index without the block's
      own ids, and exactly the old unspent outputs, even if some of those ids were fully spent before
      or the block's transactions spend each other. */
  lemma DisconnectUndoesConnect(ix: Index, vtx: seq<Tx>, at: seq<DiskTxPos>)
    requires BlockSpends(ix, vtx, at)
    ensures DisconnectTxs(ConnectTxs(ix, vtx, at, |vtx|), vtx, |vtx|) == Some(ix - Ids(vtx))
    ensures Unspent(ix - Ids(vtx)) == Unspent(ix)
    ensures Ids(vtx) !! ix.Keys ==> ix - Ids(vtx) == ix
  {
    var after := ConnectTxs(ix, vtx, at, |vtx|);
    assert Ids(vtx[|vtx|..]) == {};
    assert after - {} == after;
    DisconnectUndoesFrom(ix, vtx, at, |vtx|);
    forall h | h in Ids(vtx)
      ensures FullySpent(ix, h)
    {
      var i :| 0 <= i < |vtx| && vtx[i].hash == h;
    }
    DroppingSpentIds(ix, Ids(vtx));
  }

  /** Why a branch must not repeat an id. After a block was connected and disconnected, an older
      transaction can still be disconnected exactly when it spends none of the block's ids: the erased
      entry of a reused id is gone for good. */
  lemma ReusedIdsStrand(ix: Index, vtx: seq<Tx>, at: seq<DiskTxPos>, tx: Tx)
    requires BlockSpends(ix, vtx, at) && !tx.IsCoinBase() && CanDisconnect(ix, tx)
    ensures var back := DisconnectTxs(ConnectTxs(ix, vtx, at, |vtx|), vtx, |vtx|);
            back.Some? && (CanDisconnect(back.value, tx) <==> forall o :: o in tx.vin ==> o.hash !in Ids(vtx))
  {
    DisconnectUndoesConnect(ix, vtx, at);
    assert forall o :: o in tx.vin ==> (InRange(ix - Ids(vtx), o) <==> o.hash !in Ids(vtx));
  }

  /** Such a spend: transaction 9 spent the only output of id 5, then a block reused id 5. Once that block is
      disconnected, transaction 9 cannot be disconnected any more. */
  lemma ReusedIdStrands()
    ensures var spend := Tx(9, 0, [OutPoint(5, 0)], [TxOut(1, "")], 100, 0);
            var again := Tx(5, 0, [OutPoint(0, MAX_UINT32)], [TxOut(1, "")], 100, 0);
            var ix := map[5 := TxIndex(Pos(1, 1, 1), [Pos(2, 2, 2)]), 9 := TxIndex(Pos(2, 2, 2), [Null])];
            var back := DisconnectTxs(ConnectTxs(ix, [again], [Pos(3, 3, 3)], 1), [again], 1);
            && BlockSpends(ix, [again], [Pos(3, 3, 3)]) && CanDisconnect(ix, spend)
            && back.Some? && !CanDisconnect(back.value, spend)
  {
    var spend := Tx(9, 0, [OutPoint(5, 0)], [TxOut(1, "")], 100, 0);
    var again := Tx(5, 0, [OutPoint(0, MAX_UINT32)], [TxOut(1, "")], 100, 0);
    var ix := map[5 := TxIndex(Pos(1, 1, 1), [Pos(2, 2, 2)]), 9 := TxIndex(Pos(2, 2, 2), [Null])];
    assert again.IsCoinBase() && SpendsAt(ix, [again], [Pos(3, 3, 3)], 0);
    assert InRange(ix, spend.vin[0]);
    ReusedIdsStrand(ix, [again], [Pos(3, 3, 3)], spend);
    assert [again][0].hash in Ids([again]) && spend.vin[0] in spend.vin;
  }
}
