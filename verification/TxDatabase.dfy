/** The transaction database: a key/value store with an optional write batch laid over it.
    LevelDB's byte keys ("tx", hash), ("blockindex", hash) and "hashBestChain" never collide, so each
    kind of record is its own map here. */
module TxDatabase {
  import opened Primitives

  datatype Store = Store(txs: map<Hash, TxIndex>, blocks: map<Hash, BlockRecord>, best: Option<Hash>)

  datatype BatchOp =
    | PutTx(hash: Hash, index: TxIndex)
    | DeleteTx(hash: Hash)
    | PutBlock(hash: Hash, block: BlockRecord)
    | PutBest(hash: Hash)

  function Apply(store: Store, op: BatchOp): Store {
    match op
    case PutTx(h, index) => store.(txs := store.txs[h := index])
    case DeleteTx(h) => store.(txs := store.txs - {h})
    case PutBlock(h, block) => store.(blocks := store.blocks[h := block])
    case PutBest(h) => store.(best := Some(h))
  }

  /** What LevelDB holds after writing the whole batch. */
  function ApplyAll(store: Store, batch: seq<BatchOp>): Store {
    if batch == [] then store
    else Apply(ApplyAll(store, batch[..|batch| - 1]), batch[|batch| - 1])
  }

  function Lookup<K, V>(m: map<K, V>, k: K): Option<V> {
    if k in m then Some(m[k]) else None
  }

  predicate TouchesTx(op: BatchOp, h: Hash) {
    (op.PutTx? || op.DeleteTx?) && op.hash == h
  }

  lemma {:induction false} UntouchedTx(store: Store, batch: seq<BatchOp>, h: Hash)
    requires forall i :: 0 <= i < |batch| ==> !TouchesTx(batch[i], h)
    ensures Lookup(ApplyAll(store, batch).txs, h) == Lookup(store.txs, h)
  {
    if batch != [] {
      UntouchedTx(store, batch[..|batch| - 1], h);
      assert !TouchesTx(batch[|batch| - 1], h);
    }
  }

  /** Only the last operation on a key decides what is read. */
  lemma {:induction false} LastTouchDecides(store: Store, batch: seq<BatchOp>, h: Hash, i: nat)
    requires i < |batch| && TouchesTx(batch[i], h)
    requires forall j :: i < j < |batch| ==> !TouchesTx(batch[j], h)
    ensures Lookup(ApplyAll(store, batch).txs, h) == if batch[i].PutTx? then Some(batch[i].index) else None
  {
    if i < |batch| - 1 {
      LastTouchDecides(store, batch[..|batch| - 1], h, i);
      assert !TouchesTx(batch[|batch| - 1], h);
    }
  }

  lemma ApplyAllAppend(store: Store, batch: seq<BatchOp>, op: BatchOp)
    ensures ApplyAll(store, batch + [op]) == Apply(ApplyAll(store, batch), op)
  {
    assert (batch + [op])[..|batch|] == batch;
  }

  class TxDb {
    var store: Store
    var activeBatch: Option<seq<BatchOp>>

    /** What the store would hold if the open batch, if any, were committed now. */
    ghost function View(): Store
      reads this
    {
      if activeBatch.Some? then ApplyAll(store, activeBatch.value) else store
    }

    constructor ()
      ensures store == Store(map[], map[], None) && activeBatch == None
    {
      store := Store(map[], map[], None);
      activeBatch := None;
    }

    /** CBatchScanner run over the batch for one transaction key. */
    method ScanBatch(h: Hash) returns (found: bool, value: TxIndex, deleted: bool)
      requires activeBatch.Some?
      ensures !found ==> !deleted && Lookup(View().txs, h) == Lookup(store.txs, h)
      ensures found && deleted ==> h !in View().txs
      ensures found && !deleted ==> h in View().txs && View().txs[h] == value
      ensures found <==> exists i :: 0 <= i < |activeBatch.value| && TouchesTx(activeBatch.value[i], h)
    {
      found, deleted, value := false, false, TxIndex(Null, []);
      var batch := activeBatch.value;
      ghost var last := 0;
      for i := 0 to |batch|
        invariant !found ==> !deleted && forall j :: 0 <= j < i ==> !TouchesTx(batch[j], h)
        invariant found ==> last < i && TouchesTx(batch[last], h) && deleted == batch[last].DeleteTx?
        invariant found ==> forall j :: last < j < i ==> !TouchesTx(batch[j], h)
        invariant found && !deleted ==> batch[last].index == value
      {
        match batch[i]
        case PutTx(key, index) =>
          if key == h {
            found, deleted, value, last := true, false, index, i;
          }
        case DeleteTx(key) =>
          if key == h {
            found, deleted, last := true, true, i;
          }
        case PutBlock(_, _) =>
        case PutBest(_) =>
      }
      if found {
        LastTouchDecides(store, batch, h, last);
      } else {
        UntouchedTx(store, batch, h);
      }
    }

    /** Reads are consistent with the open batch: they answer as the store would after a commit. */
    method ReadTxIndex(h: Hash) returns (r: Option<TxIndex>)
      ensures r == Lookup(View().txs, h)
    {
      var readFromDb := true;
      if activeBatch.Some? {
        var found, value, deleted := ScanBatch(h);
        if deleted {
          return None;
        }
        readFromDb := !found;
        r := Some(value);
      }
      if readFromDb {
        r := Lookup(store.txs, h);
      }
    }

    /** CTxDB::Exists ignores a deletion in the open batch and asks the store again. */
    method ContainsTx(h: Hash) returns (r: bool)
      ensures r <==> h in View().txs || h in store.txs
    {
      if activeBatch.Some? {
        var found, _, deleted := ScanBatch(h);
        if found && !deleted {
          return true;
        }
      }
      r := h in store.txs;
    }

    method Submit(op: BatchOp)
      modifies this
      ensures View() == Apply(old(View()), op)
      ensures activeBatch.Some? == old(activeBatch.Some?)
      ensures activeBatch.Some? ==> store == old(store)
    {
      if activeBatch.Some? {
        ApplyAllAppend(store, activeBatch.value, op);
        activeBatch := Some(activeBatch.value + [op]);
      } else {
        store := Apply(store, op);
      }
    }

    method UpdateTxIndex(h: Hash, index: TxIndex)
      modifies this
      ensures View() == old(View()).(txs := old(View()).txs[h := index])
      ensures activeBatch.Some? == old(activeBatch.Some?)
      ensures activeBatch.Some? ==> store == old(store)
    {
      Submit(PutTx(h, index));
    }

    method EraseTxIndex(h: Hash)
      modifies this
      ensures View() == old(View()).(txs := old(View()).txs - {h})
      ensures activeBatch.Some? == old(activeBatch.Some?)
      ensures activeBatch.Some? ==> store == old(store)
    {
      Submit(DeleteTx(h));
    }

    method WriteBlockIndex(h: Hash, block: BlockRecord)
      modifies this
      ensures View() == old(View()).(blocks := old(View()).blocks[h := block])
      ensures activeBatch.Some? == old(activeBatch.Some?)
      ensures activeBatch.Some? ==> store == old(store)
    {
      Submit(PutBlock(h, block));
    }

    method WriteHashBestChain(h: Hash)
      modifies this
      ensures View() == old(View()).(best := Some(h))
      ensures activeBatch.Some? == old(activeBatch.Some?)
      ensures activeBatch.Some? ==> store == old(store)
    {
      Submit(PutBest(h));
    }

    method TxnBegin()
      requires activeBatch.None?
      modifies this
      ensures activeBatch == Some([]) && store == old(store) && View() == old(View())
    {
      activeBatch := Some([]);
    }

    /** LevelDB applies a batch whole or not at all; `written` is its answer. */
    method TxnCommit(written: bool) returns (ok: bool)
      requires activeBatch.Some?
      modifies this
      ensures ok == written && activeBatch == None
      ensures store == if ok then old(View()) else old(store)
    {
      if written {
        store := ApplyAll(store, activeBatch.value);
      }
      activeBatch := None;
      ok := written;
    }

    /** Forgets every write and erase made since TxnBegin. */
    method TxnAbort()
      modifies this
      ensures activeBatch == None && store == old(store) && View() == store
    {
      activeBatch := None;
    }
  }

  /** Existence as CTxDB::Exists reports it. */
  predicate ExistsAnswer(store: Store, batch: seq<BatchOp>, h: Hash) {
    h in ApplyAll(store, batch).txs || h in store.txs
  }

  /** The key's last operation in the batch erases it. */
  predicate ErasedLast(batch: seq<BatchOp>, h: Hash) {
    batch != [] &&
    (if TouchesTx(batch[|batch| - 1], h) then batch[|batch| - 1].DeleteTx?
     else ErasedLast(batch[..|batch| - 1], h))
  }

  lemma {:induction false} ErasedLastMeans(store: Store, batch: seq<BatchOp>, h: Hash)
    ensures ErasedLast(batch, h) ==> h !in ApplyAll(store, batch).txs
    ensures !ErasedLast(batch, h) && h in store.txs ==> h in ApplyAll(store, batch).txs
  {
    if batch != [] {
      ErasedLastMeans(store, batch[..|batch| - 1], h);
    }
  }

  /** Existence agrees with reading exactly when no committed key is erased last by the batch. */
  lemma {:induction false} ExistsAgreesWithRead(store: Store, batch: seq<BatchOp>, h: Hash)
    ensures ExistsAnswer(store, batch, h) == (h in ApplyAll(store, batch).txs)
            <==> !(h in store.txs && ErasedLast(batch, h))
  {
    ErasedLastMeans(store, batch, h);
  }

  /** A committed key erased in the open batch: unreadable, yet reported to exist. */
  lemma ExistsDisagrees()
    ensures var store := Store(map[7 := TxIndex(Null, [Null])], map[], None);
            var batch := [DeleteTx(7)];
            ExistsAnswer(store, batch, 7) && 7 !in ApplyAll(store, batch).txs
  {
    var store := Store(map[7 := TxIndex(Null, [Null])], map[], None);
    ApplyAllAppend(store, [], DeleteTx(7));
    assert [] + [DeleteTx(7)] == [DeleteTx(7)];
  }
}
