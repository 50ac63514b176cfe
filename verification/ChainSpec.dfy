/** The transaction index as a function of the active chain, and what holds of it on every branch. */
module ChainSpec {
  import opened Primitives
  import opened LedgerSpec
  import opened LedgerMoney
  import opened Ledger
  import opened LedgerBlocks
  import opened BlockTree

  /** Everything about the chain that never changes once a block is stored. */
  datatype Chain = Chain(tree: Tree, genesis: Hash, blocks: map<Hash, Block>, disk: Disk)

  ghost predicate ChainOk(c: Chain) {
    && TreeOk(c.tree, c.genesis)
    && c.blocks.Keys == c.tree.Keys
    && (forall h :: h in c.tree && h != c.genesis ==> Stored(c, h))
    && (forall h :: h in c.tree ==> NewIdsAt(c, h))
  }

  /** The block lies on disk where its index says, under its own name. */
  ghost predicate Stored(c: Chain, h: Hash)
    requires h in c.tree && c.blocks.Keys == c.tree.Keys
  {
    c.blocks[h].hash == h && OnDisk(c.disk, c.blocks[h].vtx, Places(c.tree[h], c.blocks[h].vtx))
  }

  function Parent(c: Chain, h: Hash): Hash
    requires h in c.tree && Above(c.tree, h)
  {
    c.tree[h].prev.value
  }

  /** The transactions of a branch in chain order. The genesis block's are never indexed. */
  ghost function TxsAt(c: Chain, h: Hash): seq<Tx>
    requires TreeOk(c.tree, c.genesis) && c.blocks.Keys == c.tree.Keys && h in c.tree
    decreases c.tree[h].height
  {
    if h == c.genesis then [] else assert Above(c.tree, h); TxsAt(c, Parent(c, h)) + c.blocks[h].vtx
  }

  /** No transaction id of a block occurs earlier on its branch. */
  ghost predicate NewIdsAt(c: Chain, h: Hash)
    requires TreeOk(c.tree, c.genesis) && c.blocks.Keys == c.tree.Keys && h in c.tree
  {
    h == c.genesis || (assert Above(c.tree, h); Ids(c.blocks[h].vtx) !! Ids(TxsAt(c, Parent(c, h))))
  }

  /** The index that connecting a branch block by block from genesis gives. */
  ghost function IndexAt(c: Chain, h: Hash): Index
    requires TreeOk(c.tree, c.genesis) && c.blocks.Keys == c.tree.Keys && h in c.tree
    decreases c.tree[h].height
  {
    if h == c.genesis then map[]
    else
      assert Above(c.tree, h);
      var vtx := c.blocks[h].vtx;
      ConnectTxs(IndexAt(c, Parent(c, h)), vtx, Places(c.tree[h], vtx), |vtx|)
  }

  /** Every block of the branch spent only what was there to spend. */
  ghost predicate Sound(c: Chain, h: Hash)
    requires TreeOk(c.tree, c.genesis) && c.blocks.Keys == c.tree.Keys && h in c.tree
    decreases c.tree[h].height
  {
    h == c.genesis ||
    (assert Above(c.tree, h);
     Sound(c, Parent(c, h)) &&
     BlockSpends(IndexAt(c, Parent(c, h)), c.blocks[h].vtx, Places(c.tree[h], c.blocks[h].vtx)))
  }

  lemma IdsConcat(a: seq<Tx>, b: seq<Tx>)
    ensures Ids(a + b) == Ids(a) + Ids(b)
  {
    forall h | h in Ids(a)
      ensures h in Ids(a + b)
    {
      var i :| 0 <= i < |a| && a[i].hash == h;
      assert (a + b)[i].hash == h;
    }
    forall h | h in Ids(b)
      ensures h in Ids(a + b)
    {
      var i :| 0 <= i < |b| && b[i].hash == h;
      assert (a + b)[|a| + i].hash == h;
    }
  }

  lemma {:induction false} KeysAt(c: Chain, h: Hash)
    requires ChainOk(c) && h in c.tree
    ensures IndexAt(c, h).Keys == Ids(TxsAt(c, h))
    decreases c.tree[h].height
  {
    if h != c.genesis {
      assert Above(c.tree, h);
      var vtx := c.blocks[h].vtx;
      KeysAt(c, Parent(c, h));
      ConnectedKeys(IndexAt(c, Parent(c, h)), vtx, Places(c.tree[h], vtx), |vtx|);
      assert vtx[..|vtx|] == vtx;
      IdsConcat(TxsAt(c, Parent(c, h)), vtx);
    }
  }

  /** On a sound branch an output is marked spent exactly when one and only one input spends it. */
  lemma {:induction false} ReflectsAt(c: Chain, h: Hash)
    requires ChainOk(c) && h in c.tree && Sound(c, h)
    ensures Reflects(TxsAt(c, h), IndexAt(c, h), c.disk)
    decreases c.tree[h].height
  {
    hide Reflects, BlockSpends;
    if h == c.genesis {
      NothingReflects(c.disk);
    } else {
      assert Above(c.tree, h);
      var vtx := c.blocks[h].vtx;
      ReflectsAt(c, Parent(c, h));
      assert NewIdsAt(c, h) && Stored(c, h);
      KeysAt(c, Parent(c, h));
      BlockReflects(TxsAt(c, Parent(c, h)), IndexAt(c, Parent(c, h)), c.disk, vtx, Places(c.tree[h], vtx), |vtx|);
      assert vtx[..|vtx|] == vtx;
    }
  }

  lemma NothingReflects(disk: Disk)
    ensures Reflects([], map[], disk)
  {
  }

  ghost predicate SpentOnce(txs: seq<Tx>, ix: Index, o: OutPoint) {
    && (InRange(ix, o) ==> (ix[o.hash].spent[o.n] != Null <==> SpendCount(txs, o) == 1))
    && SpendCount(txs, o) <= 1
    && (SpendCount(txs, o) == 1 ==> InRange(ix, o))
  }

  /** No double spend on a sound branch: at most one input of the branch spends any output, an output is
      marked spent exactly when one does, and no input spends an output that the branch lacks. */
  lemma SpentExactlyOnce(c: Chain, h: Hash, o: OutPoint)
    requires ChainOk(c) && h in c.tree && Sound(c, h)
    ensures SpentOnce(TxsAt(c, h), IndexAt(c, h), o)
  {
    ReflectsAt(c, h);
    assert InRange(IndexAt(c, h), o) ==> SpendCount(TxsAt(c, h), o) == if IsUnspent(IndexAt(c, h), o) then 0 else 1;
  }

  /** The total value of the unspent outputs of a branch. */
  ghost function UnspentAt(c: Chain, h: Hash): int
    requires ChainOk(c) && h in c.tree && Sound(c, h)
  {
    ReflectsAt(c, h);
    assert Covers(IndexAt(c, h), TxsAt(c, h)) by {
      assert forall i :: 0 <= i < |TxsAt(c, h)| ==> EntryOf(IndexAt(c, h), c.disk, TxsAt(c, h)[i]);
    }
    TotalUnspent(IndexAt(c, h), TxsAt(c, h))
  }

  /** Block by block, the unspent total grows by the block's outputs minus its inputs. */
  lemma UnspentStep(c: Chain, h: Hash)
    requires ChainOk(c) && h in c.tree && h != c.genesis && Above(c.tree, h) && Sound(c, h)
    ensures var vtx := c.blocks[h].vtx;
            UnspentAt(c, h) == UnspentAt(c, Parent(c, h)) +
              Delta(IndexAt(c, Parent(c, h)), c.disk, vtx, Places(c.tree[h], vtx), |vtx|)
  {
    hide Reflects, BlockSpends, Covers, TotalUnspent;
    var vtx, below := c.blocks[h].vtx, Parent(c, h);
    ReflectsAt(c, below);
    assert NewIdsAt(c, h) && Stored(c, h);
    KeysAt(c, below);
    BlockReflects(TxsAt(c, below), IndexAt(c, below), c.disk, vtx, Places(c.tree[h], vtx), |vtx|);
    assert vtx[..|vtx|] == vtx;
  }

  /** Disconnecting the tip of a sound branch succeeds and gives exactly the index one block lower. */
  lemma DisconnectTip(c: Chain, h: Hash)
    requires ChainOk(c) && h in c.tree && h != c.genesis && Above(c.tree, h) && Sound(c, h)
    ensures DisconnectTxs(IndexAt(c, h), c.blocks[h].vtx, |c.blocks[h].vtx|) == Some(IndexAt(c, Parent(c, h)))
  {
    hide BlockSpends;
    assert NewIdsAt(c, h);
    KeysAt(c, Parent(c, h));
    DisconnectUndoesConnect(IndexAt(c, Parent(c, h)), c.blocks[h].vtx, Places(c.tree[h], c.blocks[h].vtx));
  }
}
