/** When the active chain moves, said in terms of who asks, of heights and of valid blocks. */
module ChainDecisions {
  import opened Primitives
  import opened BlockTree
  import opened ChainSpec
  import opened ChainMoves
  import opened ChainState
  import opened Ledger
  import opened Acceptance

  /** Who may move the tip between these heights. Up or down by more than one block: a rollback, or a trusted peer as far
      as the threshold. Otherwise: any peer if there are no Demi-nodes, else one of them or ourselves as one; and not down
      unless by a rollback, a trusted peer or the configured type. */
  predicate MayMove(auth: Auth, bestHeight: nat, newHeight: nat) {
    if newHeight > bestHeight + 1 then auth.rollBack || (auth.demiRelay && auth.demiNodes && newHeight - bestHeight <= auth.threshold)
    else if bestHeight > newHeight + 1 then auth.rollBack || (auth.demiRelay && auth.demiNodes && bestHeight - newHeight <= auth.threshold)
    else
      && (auth.demiNodes ==> auth.demiRelay || auth.demiSelf)
      && (newHeight == bestHeight + 1 || auth.rollBack || auth.peerReorgType == 1 || (auth.demiRelay && auth.demiNodes))
  }

  lemma AuthorityMeans(auth: Auth, bestHeight: nat, newHeight: nat)
    ensures Authorized(auth, bestHeight, newHeight) <==> MayMove(auth, bestHeight, newHeight)
  {
  }

  /** With the configured threshold of one block, nothing but a rollback moves the tip by more than one. */
  lemma OnlyRollbackGoesDeep(auth: Auth, bestHeight: nat, newHeight: nat)
    requires auth.threshold <= 1 && (newHeight > bestHeight + 1 || bestHeight > newHeight + 1)
    ensures Authorized(auth, bestHeight, newHeight) <==> auth.rollBack
  {
    AuthorityMeans(auth, bestHeight, newHeight);
  }

  /** The block is valid where it stands. */
  ghost predicate ValidAt(c: Chain, out: Outside, h: Hash) {
    && ChainOk(c) && h in c.tree && h != c.genesis && c.tree[h].prev.Some? && c.tree[h].prev.value in c.tree
    && ValidBlock(out.env(h), IndexAt(c, c.tree[h].prev.value), c.disk, c.blocks[h], c.tree[h])
  }

  /** Both tips are past height 5000, and the new one descends from the block of the old chain 120 blocks and the threshold
      below the lower of the two. */
  ghost predicate KeepsCheckpoint(c: Chain, threshold: nat, best: Hash, pnew: Hash)
    requires ChainOk(c) && best in c.tree && pnew in c.tree
  {
    var a, b := c.tree[best].height, c.tree[pnew].height;
    var at := (if a <= b then a else b) - 120 - threshold;
    PathFacts(c.tree, c.genesis, best);
    a >= 5000 && b >= 5000 && at >= 0 && IsAncestor(c.tree, c.genesis, Path(c.tree, c.genesis, best)[at], pnew)
  }

  /** Exactly when Reorganize moves the chain. */
  lemma ReorgMeans(c: Chain, auth: Auth, out: Outside, best: Hash, pnew: Hash)
    requires ChainOk(c) && best in c.tree && pnew in c.tree
    ensures ReorgOk(c, auth, out, best, pnew) <==>
      && MayMove(auth, c.tree[best].height, c.tree[pnew].height)
      && KeepsCheckpoint(c, auth.threshold, best, pnew)
      && auth.branchSupplyOk && out.commitOk(pnew)
      && (forall h :: h in c.tree && h != c.genesis && IsAncestor(c.tree, c.genesis, h, pnew) && !IsAncestor(c.tree, c.genesis, h, best) ==>
            ValidAt(c, out, h) && out.velocityOk(h))
  {
    hide Authorized, MayMove, AcceptBlock, ValidBlock, ValidAt, BlockOk, PassesRolling, KeepsCheckpoint;
    AuthorityMeans(auth, c.tree[best].height, c.tree[pnew].height);
    CheckpointMeans(c, auth, best, pnew);
    forall h | h in c.tree && h != c.genesis
      ensures BlockOk(c, out, h) <==> ValidAt(c, out, h) && out.velocityOk(h)
    {
      BlockMeans(c, out, h);
    }
  }

  lemma CheckpointMeans(c: Chain, auth: Auth, best: Hash, pnew: Hash)
    requires ChainOk(c) && best in c.tree && pnew in c.tree
    ensures PassesRolling(c, auth, best, pnew) <==> KeepsCheckpoint(c, auth.threshold, best, pnew)
  {
    hide Stored, NewIdsAt, Path;
  }

  lemma BlockMeans(c: Chain, out: Outside, h: Hash)
    requires ChainOk(c) && h in c.tree && h != c.genesis
    ensures BlockOk(c, out, h) <==> ValidAt(c, out, h) && out.velocityOk(h)
    ensures Extends(c, out, h) <==> ValidAt(c, out, h) && out.commitOk(h)
  {
    hide AcceptBlock, ValidBlock, IndexAt;
    assert Above(c.tree, h);
    AcceptsExactlyValid(out.env(h), IndexAt(c, Parent(c, h)), c.disk, c.blocks[h], c.tree[h]);
  }

  /** Exactly when SetBestChain makes a block best: a valid child of the best block, if it can be committed, whatever the
      velocity check would say; or a reorganisation to the first block of its branch whose parent does not outweigh the
      active chain. */
  lemma BestChainMeans(c: Chain, auth: Auth, out: Outside, best: Hash, pnew: Hash)
    requires ChainOk(c) && best in c.tree && pnew in c.tree && pnew != c.genesis
    ensures c.tree[pnew].prev == Some(best) ==> (BestChainOk(c, auth, out, best, pnew) <==> ValidAt(c, out, pnew) && out.commitOk(pnew))
    ensures c.tree[pnew].prev != Some(best) ==>
      (BestChainOk(c, auth, out, best, pnew) <==>
         exists inter :: inter in c.tree && IsAncestor(c.tree, c.genesis, inter, pnew) &&
                         FirstOutweighing(c, c.tree[best].trust, inter, pnew) && ReorgOk(c, auth, out, best, inter))
  {
    hide ReorgOk, ValidAt, Extends;
    BlockMeans(c, out, pnew);
    var inter := Intermediate(c, c.tree[best].trust, pnew);
    InterMeans(c, c.tree[best].trust, pnew);
    forall other | other in c.tree && IsAncestor(c.tree, c.genesis, other, pnew) && FirstOutweighing(c, c.tree[best].trust, other, pnew)
      ensures other == inter
    {
      OneInter(c, c.tree[best].trust, pnew, inter, other);
    }
  }

  /** Its parent does not outweigh that trust, and the parent of every later block of the branch does. */
  ghost predicate FirstOutweighing(c: Chain, trust: int, inter: Hash, pnew: Hash)
    requires ChainOk(c) && inter in c.tree && pnew in c.tree
  {
    && (inter == c.genesis || (Above(c.tree, inter) && c.tree[Parent(c, inter)].trust <= trust))
    && forall h :: IsAncestor(c.tree, c.genesis, h, pnew) && !IsAncestor(c.tree, c.genesis, h, inter) ==>
         h in c.tree && h != c.genesis && Above(c.tree, h) && c.tree[Parent(c, h)].trust > trust
  }

  lemma InterMeans(c: Chain, trust: int, pnew: Hash)
    requires ChainOk(c) && pnew in c.tree
    ensures var inter := Intermediate(c, trust, pnew);
            IsAncestor(c.tree, c.genesis, inter, pnew) && FirstOutweighing(c, trust, inter, pnew)
  {
    var inter := Intermediate(c, trust, pnew);
    IntermediateIsFirst(c, trust, pnew, pnew);
    forall h | IsAncestor(c.tree, c.genesis, h, pnew) && !IsAncestor(c.tree, c.genesis, h, inter)
      ensures h in c.tree && h != c.genesis && Above(c.tree, h) && c.tree[Parent(c, h)].trust > trust
    {
      IntermediateIsFirst(c, trust, pnew, h);
    }
  }

  lemma OneInter(c: Chain, trust: int, pnew: Hash, a: Hash, b: Hash)
    requires ChainOk(c) && pnew in c.tree && a in c.tree && b in c.tree
    requires IsAncestor(c.tree, c.genesis, a, pnew) && FirstOutweighing(c, trust, a, pnew)
    requires IsAncestor(c.tree, c.genesis, b, pnew) && FirstOutweighing(c, trust, b, pnew)
    ensures a == b
  {
    AncestorAt(c.tree, c.genesis, a, pnew);
    AncestorAt(c.tree, c.genesis, b, pnew);
    if c.tree[a].height < c.tree[b].height {
      NotBelow(c, trust, pnew, a, b);
    } else if c.tree[b].height < c.tree[a].height {
      NotBelow(c, trust, pnew, b, a);
    }
  }

  lemma NotBelow(c: Chain, trust: int, pnew: Hash, low: Hash, high: Hash)
    requires ChainOk(c) && pnew in c.tree && low in c.tree && high in c.tree && c.tree[low].height < c.tree[high].height
    requires IsAncestor(c.tree, c.genesis, high, pnew) && FirstOutweighing(c, trust, high, pnew)
    ensures !FirstOutweighing(c, trust, low, pnew)
  {
    AncestorAt(c.tree, c.genesis, high, low);
  }
}
