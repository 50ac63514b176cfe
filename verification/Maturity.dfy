/** Coinbase and coinstake outputs are not spent before they mature. */
module Maturity {
  import opened Primitives
  import opened LedgerSpec
  import opened LedgerMoney
  import opened Ledger
  import opened LedgerBlocks
  import opened BlockTree
  import opened ChainSpec
  import opened ChainMoves
  import opened ChainState

  /** The places on disk of the last `maturity` blocks of a branch, the blocks the maturity walk passes. */
  ghost function RecentPlaces(c: Chain, h: Hash, maturity: nat): set<(nat, nat)>
    requires TreeOk(c.tree, c.genesis) && h in c.tree
  {
    set a | a in c.tree && IsAncestor(c.tree, c.genesis, a, h) && c.tree[h].height - c.tree[a].height < maturity ::
      (c.tree[a].file, c.tree[a].blockPos)
  }

  /** The environment of every block knows its recent blocks as the walk finds them. */
  ghost predicate WalksBack(c: Chain, out: Outside, maturity: nat)
    requires TreeOk(c.tree, c.genesis)
  {
    forall h :: h in c.tree && h != c.genesis ==> out.env(h).recent == RecentPlaces(c, h, maturity)
  }

  /** The maturity walk answers for exactly these places. */
  method WalkFindsRecent(c: Chain, h: Hash, maturity: nat, file: nat, blockPos: nat) returns (recent: bool)
    requires TreeOk(c.tree, c.genesis) && h in c.tree
    ensures recent <==> (file, blockPos) in RecentPlaces(c, h, maturity)
  {
    recent := IsRecent(c.tree, c.genesis, h, maturity, file, blockPos);
  }

  predicate IsReward(tx: Tx) {
    tx.IsCoinBase() || tx.IsCoinStake()
  }

  predicate Spends(tx: Tx, h: Hash) {
    !tx.IsCoinBase() && exists k :: 0 <= k < |tx.vin| && tx.vin[k].hash == h
  }

  /** Transaction i of block b spends reward j of block a of its branch. */
  ghost predicate SpendsReward(c: Chain, b: Hash, i: nat, a: Hash, j: nat)
    requires TreeOk(c.tree, c.genesis) && c.blocks.Keys == c.tree.Keys && b in c.tree
  {
    && a in c.tree && a != c.genesis && IsAncestor(c.tree, c.genesis, a, b)
    && i < |c.blocks[b].vtx| && j < |c.blocks[a].vtx|
    && IsReward(c.blocks[a].vtx[j]) && Spends(c.blocks[b].vtx[i], c.blocks[a].vtx[j].hash)
  }

  /** No transaction of the block spends a reward less than `maturity` blocks below it. */
  ghost predicate MatureBlock(c: Chain, b: Hash, maturity: nat)
    requires TreeOk(c.tree, c.genesis) && c.blocks.Keys == c.tree.Keys && b in c.tree
  {
    forall i: nat, a, j: nat :: SpendsReward(c, b, i, a, j) ==> c.tree[b].height - c.tree[a].height >= maturity
  }

  ghost predicate MatureChain(c: Chain, tip: Hash, maturity: nat)
    requires TreeOk(c.tree, c.genesis) && c.blocks.Keys == c.tree.Keys && tip in c.tree
  {
    forall b :: b in c.tree && b != c.genesis && IsAncestor(c.tree, c.genesis, b, tip) ==> MatureBlock(c, b, maturity)
  }

  // ----- where the index says a transaction lies

  lemma {:induction false} PlaceInBlock(db: Index, vtx: seq<Tx>, at: seq<DiskTxPos>, k: nat, j: nat)
    requires j < k <= |vtx| == |at| && DistinctIds(vtx)
    ensures var h := vtx[j].hash;
            h in ConnectTxs(db, vtx, at, k) && ConnectTxs(db, vtx, at, k)[h].pos == at[j]
  {
    if j < k - 1 {
      PlaceInBlock(db, vtx, at, k - 1, j);
      MarkAt(ConnectTxs(db, vtx, at, k - 1), vtx[k - 1].vin, at[k - 1], vtx[j].hash);
    }
  }

  lemma {:induction false} PlaceKept(db: Index, vtx: seq<Tx>, at: seq<DiskTxPos>, k: nat, h: Hash)
    requires k <= |vtx| == |at| && h in db && h !in Ids(vtx)
    ensures h in ConnectTxs(db, vtx, at, k) && ConnectTxs(db, vtx, at, k)[h].pos == db[h].pos
  {
    if k > 0 {
      PlaceKept(db, vtx, at, k - 1, h);
      assert vtx[k - 1].hash in Ids(vtx);
      MarkAt(ConnectTxs(db, vtx, at, k - 1), vtx[k - 1].vin, at[k - 1], h);
    }
  }

  /** On a sound branch every id points at its own transaction. */
  lemma {:induction false} PlaceOnBranch(c: Chain, h: Hash, a: Hash, j: nat)
    requires ChainOk(c) && h in c.tree && Sound(c, h)
    requires IsAncestor(c.tree, c.genesis, a, h) && a in c.tree && a != c.genesis && j < |c.blocks[a].vtx|
    ensures var id := c.blocks[a].vtx[j].hash;
            id in IndexAt(c, h) && IndexAt(c, h)[id].pos == Places(c.tree[a], c.blocks[a].vtx)[j]
    decreases c.tree[h].height
  {
    hide Stored, Places, BlockSpends;
    PathFacts(c.tree, c.genesis, h);
    AncestorAt(c.tree, c.genesis, a, h);
    if h != c.genesis {
      assert Above(c.tree, h);
      var below, vtx, at := Parent(c, h), c.blocks[h].vtx, Places(c.tree[h], c.blocks[h].vtx);
      if a == h {
        SpendsDistinct(IndexAt(c, below), vtx, at);
        PlaceInBlock(IndexAt(c, below), vtx, at, |vtx|, j);
      } else {
        AncestorStep(c.tree, c.genesis, a, h);
        PlaceOnBranch(c, below, a, j);
        var id := c.blocks[a].vtx[j].hash;
        KeysAt(c, below);
        assert NewIdsAt(c, h);
        PlaceKept(IndexAt(c, below), vtx, at, |vtx|, id);
      }
    }
  }

  lemma SpendsDistinct(ix: Index, vtx: seq<Tx>, at: seq<DiskTxPos>)
    requires BlockSpends(ix, vtx, at)
    ensures |vtx| == |at| && DistinctIds(vtx)
  {
  }

  // ----- an accepted block spends only mature rewards

  /** What acceptance says of one input: a reward it spends does not lie in a recent block. */
  lemma AcceptedInput(env: Env, db: Index, disk: Disk, vtx: seq<Tx>, at: seq<DiskTxPos>, i: nat, k: nat)
    requires |vtx| == |at| && RunTxs(env, db, disk, vtx, at, |vtx|).Some? && i < |vtx| && !vtx[i].IsCoinBase() && k < |vtx[i].vin|
    ensures var ix, o := ConnectTxs(db, vtx, at, i), vtx[i].vin[k];
            && FetchOk(env, ix, disk, o)
            && (IsReward(disk[ix[o.hash].pos]) && ix[o.hash].pos.Pos? ==>
                  (ix[o.hash].pos.file, ix[o.hash].pos.blockPos) !in env.recent)
  {
    hide ConnectTx, TallyTx, ConnectTxs, FetchOk, ValueIn, SumOut;
    RunPrefix(env, db, disk, vtx, at, i);
    RunPrefix(env, db, disk, vtx, at, i + 1);
    var ix := ConnectTxs(db, vtx, at, i);
    var t := RunTxs(env, db, disk, vtx, at, i).value;
    assert AcceptTx(env, db, ix, disk, vtx[i], t);
    assert FetchOk(env, ix, disk, vtx[i].vin[k]);
    assert CheapOk(env, ix, disk, vtx[i], k);
  }

  /** The entry a spending input finds is that of the reward it names. */
  lemma SpentEntry(c: Chain, b: Hash, i: nat, a: Hash, j: nat)
    requires ChainOk(c) && b in c.tree && b != c.genesis && Above(c.tree, b) && Sound(c, Parent(c, b))
    requires BlockSpends(IndexAt(c, Parent(c, b)), c.blocks[b].vtx, Places(c.tree[b], c.blocks[b].vtx))
    requires SpendsReward(c, b, i, a, j)
    requires c.blocks[a].vtx[j].hash in ConnectTxs(IndexAt(c, Parent(c, b)), c.blocks[b].vtx, Places(c.tree[b], c.blocks[b].vtx), i)
    ensures ConnectTxs(IndexAt(c, Parent(c, b)), c.blocks[b].vtx, Places(c.tree[b], c.blocks[b].vtx), i)[c.blocks[a].vtx[j].hash].pos
            == Places(c.tree[a], c.blocks[a].vtx)[j]
  {
    hide Places, Stored, BlockSpends;
    var below, vtx, at, id := Parent(c, b), c.blocks[b].vtx, Places(c.tree[b], c.blocks[b].vtx), c.blocks[a].vtx[j].hash;
    SpendsDistinct(IndexAt(c, below), vtx, at);
    assert NewIdsAt(c, b);
    KeysAt(c, below);
    if a == b {
      ConnectedKeys(IndexAt(c, below), vtx, at, i);
      assert id in Ids(vtx);
      var m :| 0 <= m < |vtx[..i]| && vtx[..i][m].hash == id;
      assert vtx[m].hash == vtx[j].hash;
      PlaceInBlock(IndexAt(c, below), vtx, at, i, j);
    } else {
      AncestorStep(c.tree, c.genesis, a, b);
      PlaceOnBranch(c, below, a, j);
      PlaceKept(IndexAt(c, below), vtx, at, i, id);
    }
  }

  /** A block accepted with the walk's recent blocks spends no immature reward. */
  lemma AcceptedIsMature(c: Chain, env: Env, b: Hash, maturity: nat)
    requires ChainOk(c) && b in c.tree && b != c.genesis && Above(c.tree, b) && Sound(c, Parent(c, b))
    requires env.recent == RecentPlaces(c, b, maturity)
    requires AcceptBlock(env, IndexAt(c, Parent(c, b)), c.disk, c.blocks[b], c.tree[b])
    ensures MatureBlock(c, b, maturity)
  {
    hide AcceptBlock, RunTxs, BlockSpends, FetchOk, Places, IndexAt, ConnectTxs, Sound;
    var db, vtx, at := IndexAt(c, Parent(c, b)), c.blocks[b].vtx, Places(c.tree[b], c.blocks[b].vtx);
    AcceptedSpends(env, db, c.disk, c.blocks[b], c.tree[b]);
    AcceptedRuns(env, db, c.disk, c.blocks[b], c.tree[b]);
    forall i: nat, a, j: nat | SpendsReward(c, b, i, a, j)
      ensures c.tree[b].height - c.tree[a].height >= maturity
    {
      var id := c.blocks[a].vtx[j].hash;
      var k :| 0 <= k < |vtx[i].vin| && vtx[i].vin[k].hash == id;
      AcceptedInput(env, db, c.disk, vtx, at, i, k);
      FetchedIsKnown(env, ConnectTxs(db, vtx, at, i), c.disk, vtx[i].vin[k]);
      SpentEntry(c, b, i, a, j);
      RewardPlace(c, a, j);
    }
  }

  lemma FetchedIsKnown(env: Env, ix: Index, disk: Disk, o: OutPoint)
    requires FetchOk(env, ix, disk, o)
    ensures o.hash in ix && ix[o.hash].pos in disk
  {
  }

  lemma RewardPlace(c: Chain, a: Hash, j: nat)
    requires ChainOk(c) && a in c.tree && a != c.genesis && j < |c.blocks[a].vtx|
    ensures var pos := Places(c.tree[a], c.blocks[a].vtx)[j];
            pos.Pos? && pos.file == c.tree[a].file && pos.blockPos == c.tree[a].blockPos && pos in c.disk && c.disk[pos] == c.blocks[a].vtx[j]
  {
    assert Stored(c, a);
  }

  // ----- over whole runs

  lemma GenesisIsMature(c: Chain, maturity: nat)
    requires ChainOk(c)
    ensures MatureChain(c, c.genesis, maturity)
  {
    PathFacts(c.tree, c.genesis, c.genesis);
  }

  lemma MatureBelow(c: Chain, tip: Hash, h: Hash, maturity: nat)
    requires ChainOk(c) && tip in c.tree && MatureChain(c, tip, maturity) && h in c.tree && IsAncestor(c.tree, c.genesis, h, tip)
    ensures MatureChain(c, h, maturity)
  {
    hide MatureBlock;
    forall b | b in c.tree && b != c.genesis && IsAncestor(c.tree, c.genesis, b, h)
      ensures MatureBlock(c, b, maturity)
    {
      AncestorTrans(c.tree, c.genesis, b, h, tip);
    }
  }

  /** Connecting the blocks of a list keeps the chain mature. */
  lemma {:induction false} MatureUp(c: Chain, out: Outside, fork: Hash, tip: Hash, list: seq<Hash>, maturity: nat)
    requires ChainOk(c) && fork in c.tree && tip in c.tree && ListsUp(c, fork, tip, list) && Sound(c, fork)
    requires MatureChain(c, fork, maturity) && WalksBack(c, out, maturity)
    requires forall i :: 0 <= i < |list| ==> list[i] in c.tree && list[i] != c.genesis && Accepted(c, out, list[i])
    ensures MatureChain(c, tip, maturity) && Sound(c, tip)
    decreases |list|
  {
    hide MatureBlock, AcceptBlock, BlockSpends, Stored, NewIdsAt, Places, IndexAt;
    if list != [] {
      var h := list[0];
      UpHead(c, fork, tip, list);
      assert Accepted(c, out, h);
      AcceptedSpends(out.env(h), IndexAt(c, fork), c.disk, c.blocks[h], c.tree[h]);
      AcceptedIsMature(c, out.env(h), h, maturity);
      forall b | b in c.tree && b != c.genesis && IsAncestor(c.tree, c.genesis, b, h)
        ensures MatureBlock(c, b, maturity)
      {
        AncestorStep(c.tree, c.genesis, b, h);
      }
      MatureUp(c, out, h, tip, list[1..], maturity);
    }
  }

  /** ConnectBlock accepts the block on top of its branch. */
  ghost predicate Accepted(c: Chain, out: Outside, h: Hash)
    requires ChainOk(c) && h in c.tree && h != c.genesis
  {
    assert Above(c.tree, h);
    AcceptBlock(out.env(h), IndexAt(c, Parent(c, h)), c.disk, c.blocks[h], c.tree[h])
  }

  /** Whenever SetBestChain succeeds and its postponed blocks connect, the new active chain spends no immature reward,
      given that the old one does not. */
  lemma MaturityIsKept(c: Chain, auth: Auth, out: Outside, best: Hash, pnew: Hash, maturity: nat)
    requires ChainOk(c) && best in c.tree && pnew in c.tree && pnew != c.genesis && Sound(c, best)
    requires WalksBack(c, out, maturity) && MatureChain(c, best, maturity)
    requires BestChainOk(c, auth, out, best, pnew) && PostponedConnect(c, out, best, pnew)
    ensures MatureChain(c, pnew, maturity)
  {
    hide MatureChain, WalksBack, Intermediate, AcceptBlock, Sound, ListsUp, ListsDown, Stored, NewIdsAt;
    assert Above(c.tree, pnew);
    if c.tree[pnew].prev == Some(best) {
      OneUp(c, best, pnew);
      MatureUp(c, out, best, pnew, [pnew], maturity);
    } else {
      var inter := Intermediate(c, c.tree[best].trust, pnew);
      ReorgIsMature(c, auth, out, best, inter, maturity);
      var down := DownList(c, best, pnew);
      PostponedList(c, out, best, pnew, inter, down);
      var up := Reversed(down);
      forall i | 0 <= i < |up| ensures Accepted(c, out, up[i]) { assert Extends(c, out, up[i]); }
      MatureUp(c, out, inter, pnew, up, maturity);
    }
  }

  lemma OneUp(c: Chain, below: Hash, h: Hash)
    requires TreeOk(c.tree, c.genesis) && h in c.tree && h != c.genesis && Above(c.tree, h) && Parent(c, h) == below
    ensures ListsUp(c, below, h, [h])
  {
    assert [h][1..] == [];
  }

  lemma ReorgIsMature(c: Chain, auth: Auth, out: Outside, best: Hash, pnew: Hash, maturity: nat)
    requires ChainOk(c) && best in c.tree && pnew in c.tree && Sound(c, best)
    requires WalksBack(c, out, maturity) && MatureChain(c, best, maturity) && BranchConnects(c, out, best, pnew)
    ensures MatureChain(c, pnew, maturity) && Sound(c, pnew)
  {
    hide MatureChain, WalksBack, AcceptBlock, Sound, ListsUp, ListsDown, Stored, NewIdsAt, BranchConnects, BlockOk;
    var fork, connect, disconnect := ForkAndLists(c, best, pnew);
    SoundDown(c, best, fork, disconnect);
    MatureBelow(c, best, fork, maturity);
    ConnectsList(c, out, fork, best, pnew, connect);
    forall i | 0 <= i < |connect| ensures Accepted(c, out, connect[i]) { BlockOkMeans(c, out, connect[i]); }
    MatureUp(c, out, fork, pnew, connect, maturity);
  }

  /** Blocks from h down to its ancestor. */
  lemma {:induction false} WayDown(c: Chain, h: Hash, a: Hash) returns (list: seq<Hash>)
    requires TreeOk(c.tree, c.genesis) && h in c.tree && a in c.tree && IsAncestor(c.tree, c.genesis, a, h)
    ensures ListsDown(c, h, a, list)
    decreases c.tree[h].height
  {
    list := [];
    if h != a {
      PathFacts(c.tree, c.genesis, h);
      assert h != c.genesis && Above(c.tree, h);
      AncestorStep(c.tree, c.genesis, a, h);
      var rest := WayDown(c, Parent(c, h), a);
      list := [h] + rest;
      assert list[1..] == rest;
    }
  }

  lemma DownList(c: Chain, best: Hash, pnew: Hash) returns (down: seq<Hash>)
    requires TreeOk(c.tree, c.genesis) && best in c.tree && pnew in c.tree
    ensures ListsDown(c, pnew, Intermediate(c, c.tree[best].trust, pnew), down)
  {
    IntermediateIsFirst(c, c.tree[best].trust, pnew, pnew);
    down := WayDown(c, pnew, Intermediate(c, c.tree[best].trust, pnew));
  }

  lemma ForkAndLists(c: Chain, best: Hash, pnew: Hash) returns (fork: Hash, connect: seq<Hash>, disconnect: seq<Hash>)
    requires TreeOk(c.tree, c.genesis) && best in c.tree && pnew in c.tree
    ensures fork in c.tree && IsFork(c.tree, c.genesis, fork, best, pnew)
    ensures ListsUp(c, fork, pnew, connect) && ListsDown(c, best, fork, disconnect)
  {
    fork := HighestCommon(c, best, pnew);
    disconnect := WayDown(c, best, fork);
    var down := WayDown(c, pnew, fork);
    DownIsUp(c, pnew, fork, down);
    connect := Reversed(down);
  }

  /** A highest common ancestor exists. */
  lemma {:induction false} HighestCommon(c: Chain, a: Hash, b: Hash) returns (fork: Hash)
    requires TreeOk(c.tree, c.genesis) && a in c.tree && b in c.tree
    ensures fork in c.tree && IsFork(c.tree, c.genesis, fork, a, b)
    decreases c.tree[a].height
  {
    PathFacts(c.tree, c.genesis, a);
    PathFacts(c.tree, c.genesis, b);
    if IsAncestor(c.tree, c.genesis, a, b) {
      fork := a;
    } else {
      assert a != c.genesis && Above(c.tree, a);
      fork := HighestCommon(c, Parent(c, a), b);
      AncestorStep(c.tree, c.genesis, fork, a);
      forall x | IsAncestor(c.tree, c.genesis, x, a) && IsAncestor(c.tree, c.genesis, x, b)
        ensures IsAncestor(c.tree, c.genesis, x, fork)
      {
        AncestorStep(c.tree, c.genesis, x, a);
      }
    }
  }

  /** A block joining elsewhere leaves a mature chain mature. */
  lemma MaturityGrows(c: Chain, c': Chain, tip: Hash, maturity: nat)
    requires ChainOk(c) && ChainOk(c') && Within(c, c') && tip in c.tree && MatureChain(c, tip, maturity)
    ensures MatureChain(c', tip, maturity)
  {
    hide Stored, NewIdsAt;
    BranchKept(c, c', tip);
    forall b | b in c'.tree && b != c'.genesis && IsAncestor(c'.tree, c'.genesis, b, tip)
      ensures MatureBlock(c', b, maturity)
    {
      AncestorAt(c.tree, c.genesis, b, tip);
      BranchKept(c, c', b);
      assert MatureBlock(c, b, maturity);
      forall i: nat, a, j: nat | SpendsReward(c', b, i, a, j)
        ensures c'.tree[b].height - c'.tree[a].height >= maturity
      {
        AncestorAt(c.tree, c.genesis, a, b);
        assert SpendsReward(c, b, i, a, j);
      }
    }
  }
}
