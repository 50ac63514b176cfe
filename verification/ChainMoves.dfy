/** Moving the database and the in-memory links from one tip of the block tree to another. */
module ChainMoves {
  import opened Primitives
  import opened TxDatabase
  import opened LedgerSpec
  import opened LedgerMoney
  import opened Ledger
  import opened LedgerBlocks
  import opened BlockTree
  import opened ChainSpec

  type States = map<Hash, BlockState>

  /** Answers from outside the chain, block by block: the connecting environment, the velocity
      constraints, and whether LevelDB commits a batch. */
  datatype Outside = Outside(env: Hash -> Env, velocityOk: Hash -> bool, commitOk: Hash -> bool)

  /** Connecting h on top of its own branch is accepted. */
  ghost predicate BlockOk(c: Chain, out: Outside, h: Hash)
    requires ChainOk(c) && h in c.tree && h != c.genesis
  {
    assert Above(c.tree, h);
    AcceptBlock(out.env(h), IndexAt(c, Parent(c, h)), c.disk, c.blocks[h], c.tree[h]) && out.velocityOk(h)
  }

  /** The recorded supply of every block of the branch is the value of the outputs unspent at it. */
  ghost predicate SupplyOk(c: Chain, s: States, h: Hash)
    requires ChainOk(c) && s.Keys == c.tree.Keys && h in c.tree && Sound(c, h)
    decreases c.tree[h].height
  {
    if h == c.genesis then s[h].supply == 0
    else
      assert Above(c.tree, h);
      SupplyOk(c, s, Parent(c, h)) && s[h].supply == UnspentAt(c, h)
  }

  /** The forward link the active chain ending in `tip` gives to h. */
  ghost function NextOn(c: Chain, tip: Hash, h: Hash): Option<Hash>
    requires TreeOk(c.tree, c.genesis) && tip in c.tree && h in c.tree
  {
    AncestorAt(c.tree, c.genesis, h, tip);
    if IsAncestor(c.tree, c.genesis, h, tip) && h != tip
    then PathFacts(c.tree, c.genesis, tip); Some(Path(c.tree, c.genesis, tip)[c.tree[h].height + 1]) else None
  }

  ghost predicate LinksOk(c: Chain, s: States, tip: Hash)
    requires TreeOk(c.tree, c.genesis) && s.Keys == c.tree.Keys && tip in c.tree
  {
    forall h :: h in c.tree ==> s[h].next == NextOn(c, tip, h)
  }

  /** IsInMainChain is right exactly because the links are. */
  lemma InMainChain(c: Chain, s: States, tip: Hash, h: Hash)
    requires TreeOk(c.tree, c.genesis) && s.Keys == c.tree.Keys && tip in c.tree && h in c.tree
    requires LinksOk(c, s, tip)
    ensures (s[h].next.Some? || h == tip) <==> IsAncestor(c.tree, c.genesis, h, tip)
  {
    PathFacts(c.tree, c.genesis, tip);
  }

  // ----- how the link of one block differs between a tip and its parent

  lemma NextBelow(c: Chain, tip: Hash, h: Hash)
    requires TreeOk(c.tree, c.genesis) && tip in c.tree && tip != c.genesis && h in c.tree
    ensures Above(c.tree, tip)
    ensures NextOn(c, tip, h) == if h == Parent(c, tip) then Some(tip) else NextOn(c, Parent(c, tip), h)
    ensures NextOn(c, Parent(c, tip), Parent(c, tip)) == None
  {
    assert Above(c.tree, tip);
    var below := Parent(c, tip);
    PathFacts(c.tree, c.genesis, tip);
    PathFacts(c.tree, c.genesis, below);
    AncestorStep(c.tree, c.genesis, h, tip);
    AncestorAt(c.tree, c.genesis, h, tip);
    AncestorAt(c.tree, c.genesis, h, below);
  }

  lemma UnlinkTip(c: Chain, s: States, tip: Hash)
    requires TreeOk(c.tree, c.genesis) && s.Keys == c.tree.Keys && tip in c.tree && tip != c.genesis && LinksOk(c, s, tip)
    ensures Above(c.tree, tip)
    ensures LinksOk(c, s[Parent(c, tip) := s[Parent(c, tip)].(next := None)], Parent(c, tip))
  {
    assert Above(c.tree, tip);
    forall h | h in c.tree { NextBelow(c, tip, h); }
  }

  lemma LinkTip(c: Chain, s: States, tip: Hash)
    requires TreeOk(c.tree, c.genesis) && s.Keys == c.tree.Keys && tip in c.tree && tip != c.genesis
    requires Above(c.tree, tip) && LinksOk(c, s, Parent(c, tip))
    ensures LinksOk(c, s[Parent(c, tip) := s[Parent(c, tip)].(next := Some(tip))], tip)
  {
    forall h | h in c.tree { NextBelow(c, tip, h); }
  }

  ghost predicate SameButLinks(s: States, s': States) {
    s'.Keys == s.Keys && forall h :: h in s ==> s'[h].mint == s[h].mint && s'[h].supply == s[h].supply
  }

  /** Clears the forward links that led to disconnected blocks. */
  method Unlink(c: Chain, s: States, list: seq<Hash>, ghost tip: Hash, ghost fork: Hash) returns (s': States)
    requires TreeOk(c.tree, c.genesis) && LinkedAt(c, s, tip) && ListsDown(c, tip, fork, list)
    ensures SameButLinks(s, s') && LinkedAt(c, s', fork)
  {
    hide LinksOk;
    s' := s;
    ghost var at := tip;
    for i := 0 to |list|
      invariant SameButLinks(s, s') && LinkedAt(c, s', at) && ListsDown(c, at, fork, list[i..])
    {
      DownHead(c, at, fork, list[i..]);
      UnlinkTip(c, s', at);
      var prev := c.tree[list[i]].prev;
      if prev.Some? {
        s' := s'[prev.value := s'[prev.value].(next := None)];
      }
      at := Parent(c, at);
    }
  }

  /** Sets the forward links that lead to connected blocks. */
  method Link(c: Chain, s: States, list: seq<Hash>, ghost fork: Hash, ghost tip: Hash) returns (s': States)
    requires TreeOk(c.tree, c.genesis) && LinkedAt(c, s, fork) && ListsUp(c, fork, tip, list)
    ensures SameButLinks(s, s') && LinkedAt(c, s', tip)
  {
    hide LinksOk;
    s' := s;
    ghost var at := fork;
    for i := 0 to |list|
      invariant SameButLinks(s, s') && LinkedAt(c, s', at) && ListsUp(c, at, tip, list[i..])
    {
      UpHead(c, at, tip, list[i..]);
      LinkTip(c, s', list[i]);
      var prev := c.tree[list[i]].prev;
      if prev.Some? {
        s' := s'[prev.value := s'[prev.value].(next := Some(list[i]))];
      }
      at := list[i];
    }
  }

  ghost predicate LinkedAt(c: Chain, s: States, tip: Hash)
    requires TreeOk(c.tree, c.genesis)
  {
    s.Keys == c.tree.Keys && tip in c.tree && LinksOk(c, s, tip)
  }

  // ----- lists of blocks along a branch

  /** The list leads from `tip` down to just above `fork`. */
  ghost predicate ListsDown(c: Chain, tip: Hash, fork: Hash, list: seq<Hash>)
    requires TreeOk(c.tree, c.genesis)
    decreases |list|
  {
    if list == [] then tip == fork
    else list[0] == tip && tip in c.tree && tip != c.genesis && Above(c.tree, tip) && ListsDown(c, Parent(c, tip), fork, list[1..])
  }

  /** The list leads from just above `fork` up to `tip`. */
  ghost predicate ListsUp(c: Chain, fork: Hash, tip: Hash, list: seq<Hash>)
    requires TreeOk(c.tree, c.genesis)
    decreases |list|
  {
    if list == [] then tip == fork
    else list[0] in c.tree && list[0] != c.genesis && Above(c.tree, list[0]) && Parent(c, list[0]) == fork &&
         ListsUp(c, list[0], tip, list[1..])
  }

  lemma DownHead(c: Chain, tip: Hash, fork: Hash, list: seq<Hash>)
    requires TreeOk(c.tree, c.genesis) && list != [] && ListsDown(c, tip, fork, list)
    ensures list[0] == tip && tip in c.tree && tip != c.genesis && Above(c.tree, tip)
    ensures ListsDown(c, Parent(c, tip), fork, list[1..])
  {
  }

  lemma UpHead(c: Chain, fork: Hash, tip: Hash, list: seq<Hash>)
    requires TreeOk(c.tree, c.genesis) && list != [] && ListsUp(c, fork, tip, list)
    ensures list[0] in c.tree && list[0] != c.genesis && Above(c.tree, list[0]) && Parent(c, list[0]) == fork
    ensures ListsUp(c, list[0], tip, list[1..])
  {
  }

  /** ListDown collects exactly such a list. */
  lemma {:induction false} DownFromPath(c: Chain, tip: Hash, fork: Hash, list: seq<Hash>)
    requires TreeOk(c.tree, c.genesis) && tip in c.tree && fork in c.tree && IsAncestor(c.tree, c.genesis, fork, tip)
    requires |Path(c.tree, c.genesis, tip)| == c.tree[tip].height + 1
    requires |list| == c.tree[tip].height - c.tree[fork].height
    requires forall i :: 0 <= i < |list| ==> list[i] == Path(c.tree, c.genesis, tip)[c.tree[tip].height - i]
    ensures ListsDown(c, tip, fork, list)
    decreases |list|
  {
    AncestorAt(c.tree, c.genesis, fork, tip);
    PathFacts(c.tree, c.genesis, tip);
    if list != [] {
      assert Above(c.tree, tip);
      var below := Parent(c, tip);
      PathFacts(c.tree, c.genesis, below);
      AncestorStep(c.tree, c.genesis, fork, tip);
      DownFromPath(c, below, fork, list[1..]);
    }
  }

  function Reversed<T>(s: seq<T>): seq<T> {
    if s == [] then [] else Reversed(s[1..]) + [s[0]]
  }

  lemma {:induction false} UpSnoc(c: Chain, fork: Hash, below: Hash, tip: Hash, list: seq<Hash>)
    requires TreeOk(c.tree, c.genesis) && ListsUp(c, fork, below, list)
    requires tip in c.tree && tip != c.genesis && Above(c.tree, tip) && Parent(c, tip) == below
    ensures ListsUp(c, fork, tip, list + [tip])
    decreases |list|
  {
    if list == [] {
      assert (list + [tip])[1..] == [];
    } else {
      UpSnoc(c, list[0], below, tip, list[1..]);
      assert (list + [tip])[1..] == list[1..] + [tip];
    }
  }

  /** Reversed, the way down is the way up. */
  lemma {:induction false} DownIsUp(c: Chain, tip: Hash, fork: Hash, list: seq<Hash>)
    requires TreeOk(c.tree, c.genesis) && ListsDown(c, tip, fork, list)
    ensures ListsUp(c, fork, tip, Reversed(list))
    decreases |list|
  {
    if list != [] {
      DownIsUp(c, Parent(c, tip), fork, list[1..]);
      UpSnoc(c, fork, Parent(c, tip), tip, Reversed(list[1..]));
    }
  }

  // ----- the database along a branch

  function RecordBelow(c: Chain, s: States, h: Hash): Option<BlockRecord>
    requires h in c.tree && s.Keys == c.tree.Keys
  {
    var prev := c.tree[h].prev;
    if prev.Some? && prev.value in c.tree then Some(BlockRecord(c.tree[prev.value], s[prev.value])) else None
  }

  type Records = map<Hash, BlockRecord>

  /** The record of one block of the chain that ends in `tip`: what memory says of it, with its link on that chain. */
  ghost predicate RecordOk(c: Chain, s: States, blocks: Records, tip: Hash, h: Hash)
    requires TreeOk(c.tree, c.genesis) && s.Keys == c.tree.Keys && tip in c.tree && h in c.tree
  {
    h in blocks && blocks[h] == BlockRecord(c.tree[h], s[h].(next := NextOn(c, tip, h)))
  }

  ghost predicate RecordsAt(c: Chain, s: States, blocks: Records, tip: Hash)
    requires TreeOk(c.tree, c.genesis) && s.Keys == c.tree.Keys && tip in c.tree
  {
    forall h :: h in c.tree && IsAncestor(c.tree, c.genesis, h, tip) ==> RecordOk(c, s, blocks, tip, h)
  }

  /** Disconnecting the tip leaves exact records of the chain below it. */
  lemma RecordsDown(c: Chain, s: States, blocks: Records, tip: Hash)
    requires TreeOk(c.tree, c.genesis) && s.Keys == c.tree.Keys && tip in c.tree && tip != c.genesis && RecordsAt(c, s, blocks, tip)
    ensures Above(c.tree, tip)
    ensures RecordsAt(c, s, Relinked(blocks, c.tree[tip], RecordBelow(c, s, tip), None), Parent(c, tip))
  {
    hide NextOn;
    assert Above(c.tree, tip);
    var below := Parent(c, tip);
    forall h | h in c.tree && IsAncestor(c.tree, c.genesis, h, below)
      ensures RecordOk(c, s, Relinked(blocks, c.tree[tip], RecordBelow(c, s, tip), None), below, h)
    {
      NextBelow(c, tip, h);
      AncestorStep(c.tree, c.genesis, h, tip);
      assert RecordOk(c, s, blocks, tip, h);
    }
  }

  /** Connecting a block leaves exact records of the chain up to it. */
  lemma RecordsUp(c: Chain, s: States, blocks: Records, h: Hash, credited: BlockState)
    requires TreeOk(c.tree, c.genesis) && s.Keys == c.tree.Keys && h in c.tree && h != c.genesis && Above(c.tree, h)
    requires RecordsAt(c, s, blocks, Parent(c, h)) && credited.next == None
    ensures RecordsAt(c, s[h := credited],
                      Relinked(blocks[h := BlockRecord(c.tree[h], credited)], c.tree[h], RecordBelow(c, s, h), Some(h)), h)
  {
    hide NextOn;
    var below := Parent(c, h);
    var blocks' := Relinked(blocks[h := BlockRecord(c.tree[h], credited)], c.tree[h], RecordBelow(c, s, h), Some(h));
    forall a | a in c.tree && IsAncestor(c.tree, c.genesis, a, h)
      ensures RecordOk(c, s[h := credited], blocks', h, a)
    {
      NextBelow(c, h, a);
      AncestorStep(c.tree, c.genesis, a, h);
      if a == h {
        NoNextAtTip(c, h);
      } else {
        AncestorAt(c.tree, c.genesis, a, below);
        assert RecordOk(c, s, blocks, below, a);
      }
    }
  }

  lemma NoNextAtTip(c: Chain, tip: Hash)
    requires TreeOk(c.tree, c.genesis) && tip in c.tree
    ensures NextOn(c, tip, tip) == None
  {
  }

  /** Records of a chain depend only on the amounts of its own blocks. */
  lemma RecordsSame(c: Chain, s: States, s': States, blocks: Records, tip: Hash)
    requires TreeOk(c.tree, c.genesis) && s.Keys == s'.Keys == c.tree.Keys && tip in c.tree && RecordsAt(c, s, blocks, tip)
    requires forall h :: h in c.tree && IsAncestor(c.tree, c.genesis, h, tip) ==> s'[h].mint == s[h].mint && s'[h].supply == s[h].supply
    ensures RecordsAt(c, s', blocks, tip)
  {
    hide NextOn;
    forall h | h in c.tree && IsAncestor(c.tree, c.genesis, h, tip)
      ensures RecordOk(c, s', blocks, tip, h)
    {
      assert RecordOk(c, s, blocks, tip, h);
    }
  }

  lemma {:induction false} SoundDown(c: Chain, tip: Hash, fork: Hash, list: seq<Hash>)
    requires ChainOk(c) && ListsDown(c, tip, fork, list) && tip in c.tree && Sound(c, tip)
    ensures fork in c.tree && Sound(c, fork)
    decreases |list|
  {
    if list != [] {
      SoundDown(c, Parent(c, tip), fork, list[1..]);
    }
  }

  /** Disconnects the listed blocks: on a sound branch this cannot fail, and it arrives at exactly the
      index of the fork. */
  method DisconnectBranch(db: TxDb, c: Chain, s: States, list: seq<Hash>, ghost tip: Hash, ghost fork: Hash) returns (ok: bool)
    requires ChainOk(c) && s.Keys == c.tree.Keys && ListsDown(c, tip, fork, list) && tip in c.tree && Sound(c, tip)
    requires db.activeBatch.Some? && db.View().txs == IndexAt(c, tip) && RecordsAt(c, s, db.View().blocks, tip)
    modifies db
    ensures ok && fork in c.tree && Sound(c, fork) && db.View().txs == IndexAt(c, fork)
    ensures RecordsAt(c, s, db.View().blocks, fork)
    ensures db.activeBatch.Some? && db.store == old(db.store)
  {
    hide RecordsAt, Relinked, Stored, NewIdsAt;
    ghost var at := tip;
    for i := 0 to |list|
      invariant at in c.tree && Sound(c, at) && ListsDown(c, at, fork, list[i..])
      invariant db.activeBatch.Some? && db.View().txs == IndexAt(c, at) && db.store == old(db.store)
      invariant RecordsAt(c, s, db.View().blocks, at)
    {
      DownHead(c, at, fork, list[i..]);
      DisconnectTip(c, at);
      RecordsDown(c, s, db.View().blocks, at);
      var h := list[i];
      var undone := DisconnectBlock(db, c.blocks[h], c.tree[h], RecordBelow(c, s, h));
      if !undone {
        return false;
      }
      at := Parent(c, at);
    }
    ok := true;
  }

  /** Only amounts, and only of listed blocks, were recorded. */
  ghost predicate OnlyCredited(s: States, s': States, list: seq<Hash>) {
    s'.Keys == s.Keys && forall h :: h in s ==> s'[h].next == s[h].next && (h !in list ==> s'[h] == s[h])
  }

  /** Connecting one accepted block extends a sound branch and records the right supply. */
  lemma ConnectTip(c: Chain, out: Outside, s: States, h: Hash, credited: BlockState)
    requires ChainOk(c) && s.Keys == c.tree.Keys && h in c.tree && h != c.genesis && Above(c.tree, h)
    requires Sound(c, Parent(c, h)) && SupplyOk(c, s, Parent(c, h))
    requires BlockOk(c, out, h)
    requires var vtx := c.blocks[h].vtx;
             var t := RunTxs(out.env(h), IndexAt(c, Parent(c, h)), c.disk, vtx, Places(c.tree[h], vtx), |vtx|);
             t.Some? && credited == Credited(s[h], RecordBelow(c, s, h), t.value)
    ensures Sound(c, h) && SupplyOk(c, s[h := credited], h)
  {
    hide AcceptBlock, BlockSpends, Delta, RunTxs, Places, IndexAt, UnspentAt;
    var below, vtx := Parent(c, h), c.blocks[h].vtx;
    AcceptedSpends(out.env(h), IndexAt(c, below), c.disk, c.blocks[h], c.tree[h]);
    UnspentStep(c, h);
    RunSums(out.env(h), IndexAt(c, below), c.disk, vtx, Places(c.tree[h], vtx), |vtx|);
    SupplyLocal(c, s, s[h := credited], below, c.tree[below].height);
    if below == c.genesis {
      GenesisEmpty(c);
    }
  }

  lemma GenesisEmpty(c: Chain)
    requires ChainOk(c)
    ensures Sound(c, c.genesis) && UnspentAt(c, c.genesis) == 0
  {
  }

  /** Supplies of a branch depend only on the states up to its height. */
  lemma {:induction false} SupplyLocal(c: Chain, s: States, s': States, h: Hash, height: nat)
    requires ChainOk(c) && s.Keys == s'.Keys == c.tree.Keys && h in c.tree && c.tree[h].height <= height && Sound(c, h)
    requires SupplyOk(c, s, h)
    requires forall a :: a in c.tree && c.tree[a].height <= height ==> s'[a].supply == s[a].supply
    ensures SupplyOk(c, s', h)
    decreases c.tree[h].height
  {
    if h != c.genesis {
      assert Above(c.tree, h);
      SupplyLocal(c, s, s', Parent(c, h), height);
    }
  }

  /** Connects the listed blocks one by one. */
  method ConnectBranch(db: TxDb, c: Chain, out: Outside, s: States, list: seq<Hash>, ghost fork: Hash, ghost tip: Hash)
    returns (ok: bool, s': States)
    requires ChainOk(c) && s.Keys == c.tree.Keys && ListsUp(c, fork, tip, list)
    requires fork in c.tree && Sound(c, fork) && SupplyOk(c, s, fork)
    requires forall i :: 0 <= i < |list| ==> list[i] in c.tree && list[i] != c.genesis && s[list[i]].next == None
    requires db.activeBatch.Some? && db.View().txs == IndexAt(c, fork) && RecordsAt(c, s, db.View().blocks, fork)
    modifies db
    ensures ok <==> forall i :: 0 <= i < |list| ==> BlockOk(c, out, list[i])
    ensures OnlyCredited(s, s', list)
    ensures ok ==> tip in c.tree && Sound(c, tip) && SupplyOk(c, s', tip) && db.View().txs == IndexAt(c, tip)
    ensures ok ==> RecordsAt(c, s', db.View().blocks, tip)
    ensures db.activeBatch.Some? && db.store == old(db.store)
  {
    hide RecordsAt, BlockOk, SupplyOk, Sound, IndexAt, Stored, NewIdsAt;
    s' := s;
    ghost var at := fork;
    for i := 0 to |list|
      invariant at in c.tree && Sound(c, at) && ListsUp(c, at, tip, list[i..])
      invariant OnlyCredited(s, s', list) && SupplyOk(c, s', at) && RecordsAt(c, s', db.View().blocks, at)
      invariant forall j :: 0 <= j < i ==> BlockOk(c, out, list[j])
      invariant db.activeBatch.Some? && db.View().txs == IndexAt(c, at) && db.store == old(db.store)
    {
      UpHead(c, at, tip, list[i..]);
      var accepted;
      accepted, s' := ConnectNext(db, c, out, s', list[i], at);
      BlockOkMeans(c, out, list[i]);
      if !accepted || !out.velocityOk(list[i]) {
        assert !BlockOk(c, out, list[i]);
        return false, s';
      }
      at := list[i];
    }
    ok := true;
  }

  lemma BlockOkMeans(c: Chain, out: Outside, h: Hash)
    requires ChainOk(c) && h in c.tree && h != c.genesis
    ensures Above(c.tree, h)
    ensures BlockOk(c, out, h) <==> AcceptBlock(out.env(h), IndexAt(c, Parent(c, h)), c.disk, c.blocks[h], c.tree[h]) && out.velocityOk(h)
  {
  }

  method ConnectNext(db: TxDb, c: Chain, out: Outside, s: States, h: Hash, ghost below: Hash) returns (ok: bool, s': States)
    requires ChainOk(c) && s.Keys == c.tree.Keys && h in c.tree && h != c.genesis && Above(c.tree, h) && below == Parent(c, h)
    requires Sound(c, below) && SupplyOk(c, s, below) && s[h].next == None
    requires db.activeBatch.Some? && db.View().txs == IndexAt(c, below) && RecordsAt(c, s, db.View().blocks, below)
    modifies db
    ensures ok <==> AcceptBlock(out.env(h), IndexAt(c, below), c.disk, c.blocks[h], c.tree[h])
    ensures OnlyCredited(s, s', [h])
    ensures ok ==> RecordsAt(c, s', db.View().blocks, h)
    ensures BlockOk(c, out, h) ==> Sound(c, h) && SupplyOk(c, s', h)
    ensures ok ==> db.View().txs == IndexAt(c, h) && db.View().best == old(db.View().best)
    ensures !ok ==> db.View() == old(db.View()) && s' == s
    ensures db.activeBatch.Some? && db.store == old(db.store)
  {
    hide AcceptBlock, RecordsAt, Relinked, SupplyOk;
    ghost var blocks := db.View().blocks;
    var r := ConnectBlock(db, out.env(h), c.disk, c.blocks[h], c.tree[h], s[h], RecordBelow(c, s, h));
    if r.None? {
      return false, s;
    }
    s' := s[h := r.value];
    RecordsUp(c, s, blocks, h, r.value);
    if BlockOk(c, out, h) {
      AcceptedRuns(out.env(h), IndexAt(c, below), c.disk, c.blocks[h], c.tree[h]);
      ConnectTip(c, out, s, h, r.value);
    }
    ok := true;
  }

  lemma AcceptedRuns(env: Env, db: Index, disk: Disk, block: Block, pindex: BlockIndex)
    requires AcceptBlock(env, db, disk, block, pindex)
    ensures RunTxs(env, db, disk, block.vtx, Places(pindex, block.vtx), |block.vtx|).Some?
  {
  }
}
