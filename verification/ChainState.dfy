/** The active chain: extending it, reorganising it, and what every run keeps. */
module ChainState {
  import opened Primitives
  import opened TxDatabase
  import opened LedgerSpec
  import opened LedgerMoney
  import opened Ledger
  import opened LedgerBlocks
  import opened BlockTree
  import opened ChainSpec
  import opened ChainMoves

  /** Who asks for a reorganisation, and the configured limits. */
  datatype Auth = Auth(demiRelay: bool, demiNodes: bool, demiSelf: bool, rollBack: bool, peerReorgType: int,
                       threshold: nat, branchSupplyOk: bool)

  function Shorter(a: nat, b: nat): nat {
    if b > a then a else b
  }

  /** Reverse reorganisations need authority, and so do deep ones. */
  predicate Authorized(auth: Auth, bestHeight: nat, newHeight: nat) {
    var forward := newHeight > bestHeight;
    var depth := if forward then newHeight - bestHeight else bestHeight - newHeight;
    var trusted := (auth.demiRelay && auth.demiNodes) || auth.rollBack;
    && (forward || trusted || auth.peerReorgType == 1)
    && (if depth > REORG_MAX_DEPTH then trusted && (depth > auth.threshold ==> auth.rollBack)
        else auth.demiRelay || !auth.demiNodes || auth.demiSelf)
  }

  function CheckpointHeight(auth: Auth, a: nat, b: nat): int {
    Shorter(a, b) - (TEMP_CHECKPOINT_DEPTH + auth.threshold)
  }

  /** The walk back to the rolling checkpoint stays on the chain. */
  predicate WalkStays(auth: Auth, a: nat, b: nat) {
    Shorter(a, b) >= 5000 ==> CheckpointHeight(auth, a, b) >= 0
  }

  /** The new tip descends from the rolling checkpoint of the old one. */
  ghost predicate PassesRolling(c: Chain, auth: Auth, best: Hash, pnew: Hash)
    requires TreeOk(c.tree, c.genesis) && best in c.tree && pnew in c.tree
  {
    PathFacts(c.tree, c.genesis, best);
    var past := CheckpointHeight(auth, c.tree[best].height, c.tree[pnew].height);
    && Shorter(c.tree[best].height, c.tree[pnew].height) >= 5000
    && 0 <= past && IsAncestor(c.tree, c.genesis, Path(c.tree, c.genesis, best)[past], pnew)
  }

  /** Every block of the new branch that the old one lacks connects. */
  ghost predicate BranchConnects(c: Chain, out: Outside, best: Hash, pnew: Hash)
    requires ChainOk(c) && best in c.tree && pnew in c.tree
  {
    forall h | h in c.tree && h != c.genesis && IsAncestor(c.tree, c.genesis, h, pnew) && !IsAncestor(c.tree, c.genesis, h, best) ::
      BlockOk(c, out, h)
  }

  /** Exactly when Reorganize succeeds. */
  ghost predicate ReorgOk(c: Chain, auth: Auth, out: Outside, best: Hash, pnew: Hash)
    requires ChainOk(c) && best in c.tree && pnew in c.tree
  {
    && Authorized(auth, c.tree[best].height, c.tree[pnew].height)
    && PassesRolling(c, auth, best, pnew)
    && auth.branchSupplyOk
    && BranchConnects(c, out, best, pnew)
    && out.commitOk(pnew)
  }

  // ----- lemmas on branches

  lemma {:induction false} ListedAbove(c: Chain, fork: Hash, tip: Hash, list: seq<Hash>, h: Hash)
    requires TreeOk(c.tree, c.genesis) && fork in c.tree && tip in c.tree && ListsUp(c, fork, tip, list)
    ensures h in list ==> h in c.tree && h != c.genesis && IsAncestor(c.tree, c.genesis, h, tip) && !IsAncestor(c.tree, c.genesis, h, fork)
    ensures IsAncestor(c.tree, c.genesis, h, tip) && !IsAncestor(c.tree, c.genesis, h, fork) ==> h in list
    ensures IsAncestor(c.tree, c.genesis, fork, tip)
    decreases |list|
  {
    PathFacts(c.tree, c.genesis, tip);
    if list != [] {
      var next := list[0];
      ListedAbove(c, next, tip, list[1..], h);
      AncestorStep(c.tree, c.genesis, h, next);
      PathFacts(c.tree, c.genesis, fork);
      PathFacts(c.tree, c.genesis, next);
      AncestorTrans(c.tree, c.genesis, next, next, tip);
      AncestorTrans(c.tree, c.genesis, fork, next, tip);
      if h in list {
        assert h == next || h in list[1..];
        AncestorAt(c.tree, c.genesis, next, fork);
      }
    }
  }

  /** Above the fork the two branches have nothing in common. */
  lemma AboveFork(c: Chain, fork: Hash, best: Hash, pnew: Hash, h: Hash)
    requires TreeOk(c.tree, c.genesis) && best in c.tree && pnew in c.tree && IsFork(c.tree, c.genesis, fork, best, pnew)
    requires IsAncestor(c.tree, c.genesis, h, pnew)
    ensures IsAncestor(c.tree, c.genesis, h, fork) <==> IsAncestor(c.tree, c.genesis, h, best)
  {
    if IsAncestor(c.tree, c.genesis, h, fork) {
      AncestorTrans(c.tree, c.genesis, h, fork, best);
    }
  }

  /** Supplies of a branch depend only on its own blocks. */
  lemma {:induction false} SupplyAlong(c: Chain, s: States, s': States, h: Hash)
    requires ChainOk(c) && s.Keys == s'.Keys == c.tree.Keys && h in c.tree && Sound(c, h) && SupplyOk(c, s, h)
    requires forall a :: a in c.tree && IsAncestor(c.tree, c.genesis, a, h) ==> s'[a].supply == s[a].supply
    ensures SupplyOk(c, s', h)
    decreases c.tree[h].height
  {
    PathFacts(c.tree, c.genesis, h);
    assert IsAncestor(c.tree, c.genesis, h, h);
    if h != c.genesis {
      assert Above(c.tree, h);
      forall a | a in c.tree && IsAncestor(c.tree, c.genesis, a, Parent(c, h))
        ensures s'[a].supply == s[a].supply
      {
        AncestorStep(c.tree, c.genesis, a, h);
      }
      SupplyAlong(c, s, s', Parent(c, h));
    }
  }

  lemma {:induction false} SupplyDown(c: Chain, s: States, tip: Hash, fork: Hash, list: seq<Hash>)
    requires ChainOk(c) && s.Keys == c.tree.Keys && ListsDown(c, tip, fork, list)
    requires tip in c.tree && Sound(c, tip) && SupplyOk(c, s, tip)
    ensures fork in c.tree && Sound(c, fork) && SupplyOk(c, s, fork)
    decreases |list|
  {
    if list != [] {
      SupplyDown(c, s, Parent(c, tip), fork, list[1..]);
    }
  }

  /** What the memory structures say when the active chain ends in `tip`. */
  ghost predicate MemoryOk(c: Chain, s: States, tip: Hash) {
    ChainOk(c) && s.Keys == c.tree.Keys && tip in c.tree && Sound(c, tip) && SupplyOk(c, s, tip) && LinksOk(c, s, tip)
  }

  /** Only amounts changed, and only of blocks off the chain that ends in `tip`. */
  ghost predicate OffChain(c: Chain, s: States, s': States, tip: Hash)
    requires TreeOk(c.tree, c.genesis) && tip in c.tree
  {
    && s.Keys == s'.Keys == c.tree.Keys
    && forall h :: h in c.tree ==> s'[h].next == s[h].next && (IsAncestor(c.tree, c.genesis, h, tip) ==> s'[h] == s[h])
  }

  /** Amounts recorded off the active chain do not disturb it. */
  lemma MemoryKept(c: Chain, s: States, s': States, tip: Hash)
    requires MemoryOk(c, s, tip) && OffChain(c, s, s', tip)
    ensures MemoryOk(c, s', tip)
    ensures forall blocks: Records :: RecordsAt(c, s, blocks, tip) ==> RecordsAt(c, s', blocks, tip)
  {
    hide RecordsAt, Stored, NewIdsAt, NextOn;
    SupplyAlong(c, s, s', tip);
    forall blocks: Records | RecordsAt(c, s, blocks, tip)
      ensures RecordsAt(c, s', blocks, tip)
    {
      RecordsSame(c, s, s', blocks, tip);
    }
  }

  /** The blocks of the new branch above the fork are off the active chain, and nothing follows them. */
  lemma BranchIsOff(c: Chain, s: States, tip: Hash, fork: Hash, pnew: Hash, list: seq<Hash>)
    requires MemoryOk(c, s, tip) && pnew in c.tree && fork in c.tree
    requires IsFork(c.tree, c.genesis, fork, tip, pnew) && ListsUp(c, fork, pnew, list)
    ensures forall i :: 0 <= i < |list| ==> list[i] in c.tree && s[list[i]].next == None
    ensures forall s' :: OnlyCredited(s, s', list) ==> OffChain(c, s, s', tip)
  {
    hide MemoryOk, IsFork, ListsUp, NextOn, IsAncestor;
    MemoryTree(c, s, tip);
    forall i | 0 <= i < |list|
      ensures list[i] in c.tree && s[list[i]].next == None && !IsAncestor(c.tree, c.genesis, list[i], tip)
    {
      ListedIsOff(c, s, tip, fork, pnew, list, list[i]);
    }
  }

  lemma MemoryTree(c: Chain, s: States, tip: Hash)
    requires MemoryOk(c, s, tip)
    ensures TreeOk(c.tree, c.genesis) && s.Keys == c.tree.Keys && tip in c.tree
  {
  }

  lemma ListedIsOff(c: Chain, s: States, tip: Hash, fork: Hash, pnew: Hash, list: seq<Hash>, h: Hash)
    requires MemoryOk(c, s, tip) && pnew in c.tree && fork in c.tree && h in list
    requires IsFork(c.tree, c.genesis, fork, tip, pnew) && ListsUp(c, fork, pnew, list)
    ensures h in c.tree && !IsAncestor(c.tree, c.genesis, h, tip) && s[h].next == None
  {
    hide Stored, NewIdsAt, SupplyOk, Sound;
    ListedAbove(c, fork, pnew, list, h);
    AboveFork(c, fork, tip, pnew, h);
    assert s[h].next == NextOn(c, tip, h);
  }

  /** The blocks to connect are those the active chain lacks. */
  lemma ConnectsList(c: Chain, out: Outside, fork: Hash, best: Hash, pnew: Hash, list: seq<Hash>)
    requires ChainOk(c) && best in c.tree && pnew in c.tree && IsFork(c.tree, c.genesis, fork, best, pnew)
    requires ListsUp(c, fork, pnew, list)
    ensures forall i :: 0 <= i < |list| ==> list[i] in c.tree && list[i] != c.genesis
    ensures BranchConnects(c, out, best, pnew) <==> forall i :: 0 <= i < |list| ==> BlockOk(c, out, list[i])
  {
    hide BlockOk, ListsUp;
    forall i | 0 <= i < |list|
      ensures list[i] in c.tree && list[i] != c.genesis
      ensures IsAncestor(c.tree, c.genesis, list[i], pnew) && !IsAncestor(c.tree, c.genesis, list[i], best)
    {
      assert list[i] in list;
      ListedAbove(c, fork, pnew, list, list[i]);
      AboveFork(c, fork, best, pnew, list[i]);
    }
    if forall i :: 0 <= i < |list| ==> BlockOk(c, out, list[i]) {
      forall h | h in c.tree && h != c.genesis && IsAncestor(c.tree, c.genesis, h, pnew) && !IsAncestor(c.tree, c.genesis, h, best)
        ensures BlockOk(c, out, h)
      {
        ListedAbove(c, fork, pnew, list, h);
        AboveFork(c, fork, best, pnew, h);
        var i :| 0 <= i < |list| && list[i] == h;
      }
    }
  }

  /** A fork at or above the checkpoint: everything disconnected lies above it. */
  lemma ForkIsShallow(c: Chain, auth: Auth, fork: Hash, best: Hash, pnew: Hash)
    requires TreeOk(c.tree, c.genesis) && best in c.tree && pnew in c.tree
    requires IsFork(c.tree, c.genesis, fork, best, pnew) && PassesRolling(c, auth, best, pnew)
    ensures c.tree[fork].height >= CheckpointHeight(auth, c.tree[best].height, c.tree[pnew].height)
  {
    PathFacts(c.tree, c.genesis, best);
    var past := CheckpointHeight(auth, c.tree[best].height, c.tree[pnew].height);
    var rolling := Path(c.tree, c.genesis, best)[past];
    assert IsAncestor(c.tree, c.genesis, rolling, best);
    AncestorAt(c.tree, c.genesis, rolling, fork);
  }

  /** Reorganize's checks of direction and depth. */
  method CheckAuthority(auth: Auth, bestHeight: nat, newHeight: nat) returns (ok: bool)
    ensures ok <==> Authorized(auth, bestHeight, newHeight)
  {
    var reverse := !(newHeight > bestHeight);
    var depth := if reverse then bestHeight - newHeight else newHeight - bestHeight;
    if reverse {
      if !((auth.demiRelay && auth.demiNodes) || auth.rollBack || auth.peerReorgType == 1) {
        return false;
      }
    }
    if depth > REORG_MAX_DEPTH {
      if !((auth.demiRelay && auth.demiNodes) || auth.rollBack) {
        return false;
      }
      if depth > auth.threshold && !auth.rollBack {
        return false;
      }
    } else if !auth.demiRelay && auth.demiNodes {
      if !auth.demiSelf {
        return false;
      }
    }
    ok := true;
  }

  /** The checks Reorganize makes before it touches the database. */
  method MayReorganize(c: Chain, auth: Auth, best: Hash, pnew: Hash) returns (ok: bool)
    requires TreeOk(c.tree, c.genesis) && best in c.tree && pnew in c.tree
    requires WalkStays(auth, c.tree[best].height, c.tree[pnew].height)
    ensures ok <==> Authorized(auth, c.tree[best].height, c.tree[pnew].height) && PassesRolling(c, auth, best, pnew)
  {
    var authorized := CheckAuthority(auth, c.tree[best].height, c.tree[pnew].height);
    if !authorized {
      return false;
    }
    var shorter := Shorter(c.tree[best].height, c.tree[pnew].height);
    var rolling := RollingCheckpoints(c.tree, c.genesis, shorter, best, auth.threshold);
    if rolling.None? {
      return false;
    }
    PathFacts(c.tree, c.genesis, best);
    ok := PassesCheckpoint(c.tree, c.genesis, pnew, rolling.value.0, rolling.value.1);
  }

  /** The first block below `pnew` whose parent does not already outweigh the active chain. */
  ghost function Intermediate(c: Chain, bestTrust: int, pnew: Hash): (h: Hash)
    requires TreeOk(c.tree, c.genesis) && pnew in c.tree
    ensures h in c.tree
    decreases c.tree[pnew].height
  {
    if pnew == c.genesis then pnew
    else
      assert Above(c.tree, pnew);
      if c.tree[Parent(c, pnew)].trust > bestTrust then Intermediate(c, bestTrust, Parent(c, pnew)) else pnew
  }

  /** It lies on the new branch, its parent does not outweigh the active chain, and the parent of every
      block above it does. */
  lemma {:induction false} IntermediateIsFirst(c: Chain, bestTrust: int, pnew: Hash, h: Hash)
    requires TreeOk(c.tree, c.genesis) && pnew in c.tree
    ensures var inter := Intermediate(c, bestTrust, pnew);
            && IsAncestor(c.tree, c.genesis, inter, pnew)
            && (inter == c.genesis || (Above(c.tree, inter) && c.tree[Parent(c, inter)].trust <= bestTrust))
            && (IsAncestor(c.tree, c.genesis, h, pnew) && !IsAncestor(c.tree, c.genesis, h, inter) ==>
                  h in c.tree && h != c.genesis && Above(c.tree, h) && c.tree[Parent(c, h)].trust > bestTrust)
    decreases c.tree[pnew].height
  {
    PathFacts(c.tree, c.genesis, pnew);
    if pnew != c.genesis {
      assert Above(c.tree, pnew);
      var inter := Intermediate(c, bestTrust, pnew);
      AncestorStep(c.tree, c.genesis, h, pnew);
      if c.tree[Parent(c, pnew)].trust > bestTrust {
        IntermediateIsFirst(c, bestTrust, Parent(c, pnew), h);
        AncestorStep(c.tree, c.genesis, inter, pnew);
      }
    }
  }

  /** SetBestChain's search for it, with the blocks whose connection is postponed. */
  method FindIntermediate(c: Chain, bestTrust: int, pnew: Hash) returns (inter: Hash, postponed: seq<Hash>)
    requires TreeOk(c.tree, c.genesis) && pnew in c.tree
    ensures inter == Intermediate(c, bestTrust, pnew) && ListsDown(c, pnew, inter, postponed)
    ensures inter == c.genesis || (Above(c.tree, inter) && c.tree[Parent(c, inter)].trust <= bestTrust)
    ensures forall i :: 0 <= i < |postponed| ==>
      postponed[i] in c.tree && Above(c.tree, postponed[i]) && c.tree[Parent(c, postponed[i])].trust > bestTrust
  {
    inter, postponed := pnew, [];
    while c.tree[inter].prev.Some? && c.tree[c.tree[inter].prev.value].trust > bestTrust
      invariant inter in c.tree && (inter == c.genesis || Above(c.tree, inter))
      invariant Intermediate(c, bestTrust, pnew) == Intermediate(c, bestTrust, inter)
      invariant ListsDown(c, pnew, inter, postponed)
      invariant forall i :: 0 <= i < |postponed| ==>
        postponed[i] in c.tree && Above(c.tree, postponed[i]) && c.tree[Parent(c, postponed[i])].trust > bestTrust
      decreases c.tree[inter].height
    {
      DownSnoc(c, pnew, inter, postponed);
      postponed := postponed + [inter];
      inter := c.tree[inter].prev.value;
      assert inter == c.genesis || Above(c.tree, inter);
    }
  }

  lemma {:induction false} DownSnoc(c: Chain, tip: Hash, last: Hash, list: seq<Hash>)
    requires TreeOk(c.tree, c.genesis) && ListsDown(c, tip, last, list)
    requires last in c.tree && last != c.genesis && Above(c.tree, last)
    ensures ListsDown(c, tip, Parent(c, last), list + [last])
    decreases |list|
  {
    if list == [] {
      assert (list + [last])[1..] == [];
    } else {
      DownSnoc(c, Parent(c, tip), last, list[1..]);
      assert (list + [last])[1..] == list[1..] + [last];
    }
  }

  /** Connecting h on top of its branch is accepted and committed. */
  ghost predicate Extends(c: Chain, out: Outside, h: Hash)
    requires ChainOk(c) && h in c.tree && h != c.genesis
  {
    assert Above(c.tree, h);
    AcceptBlock(out.env(h), IndexAt(c, Parent(c, h)), c.disk, c.blocks[h], c.tree[h]) && out.commitOk(h)
  }

  /** The checkpoint walk of the reorganisation to `pnew`, if there is one, stays on the chain. */
  ghost predicate MayWalk(c: Chain, auth: Auth, best: Hash, pnew: Hash)
    requires TreeOk(c.tree, c.genesis) && best in c.tree && pnew in c.tree
  {
    c.tree[pnew].prev == Some(best) ||
    WalkStays(auth, c.tree[best].height, c.tree[Intermediate(c, c.tree[best].trust, pnew)].height)
  }

  /** The same for a tip that has just joined the tree. */
  ghost predicate MayWalkTo(c: Chain, auth: Auth, best: Hash, pnew: Hash) {
    TreeOk(c.tree, c.genesis) && best in c.tree && pnew in c.tree ==> MayWalk(c, auth, best, pnew)
  }

  /** For thresholds up to 4880 the walk stays on every chain, so that the preconditions on it always hold. */
  lemma SmallThresholdStays(c: Chain, auth: Auth, best: Hash, pnew: Hash)
    requires TreeOk(c.tree, c.genesis) && best in c.tree && pnew in c.tree && auth.threshold <= 4880
    ensures MayWalk(c, auth, best, pnew) && forall a: nat, b: nat :: WalkStays(auth, a, b)
  {
    hide Intermediate;
  }

  /** Exactly when SetBestChain reports success. */
  ghost predicate BestChainOk(c: Chain, auth: Auth, out: Outside, best: Hash, pnew: Hash)
    requires ChainOk(c) && best in c.tree && pnew in c.tree && pnew != c.genesis
  {
    if c.tree[pnew].prev == Some(best) then Extends(c, out, pnew)
    else ReorgOk(c, auth, out, best, Intermediate(c, c.tree[best].trust, pnew))
  }

  ghost predicate BecomesBest(c: Chain, auth: Auth, out: Outside, best: Hash, pnew: Hash) {
    ChainOk(c) && best in c.tree && pnew in c.tree && pnew != c.genesis && BestChainOk(c, auth, out, best, pnew)
  }

  ghost predicate AllConnect(c: Chain, out: Outside, best: Hash, pnew: Hash) {
    ChainOk(c) && best in c.tree && pnew in c.tree && pnew != c.genesis && PostponedConnect(c, out, best, pnew)
  }

  /** Every block whose connection a reorganisation postpones extends its branch. */
  ghost predicate PostponedConnect(c: Chain, out: Outside, best: Hash, pnew: Hash)
    requires ChainOk(c) && best in c.tree && pnew in c.tree && pnew != c.genesis
  {
    c.tree[pnew].prev == Some(best) ||
    forall h | h in c.tree && h != c.genesis && IsAncestor(c.tree, c.genesis, h, pnew) &&
               !IsAncestor(c.tree, c.genesis, h, Intermediate(c, c.tree[best].trust, pnew)) :: Extends(c, out, h)
  }

  /** Whenever a reorganisation succeeds and postpones a block, that block may still fail, say because its commit
      does; then SetBestChain reports success although memory and database part. */
  lemma SuccessDespiteFailure(c: Chain, auth: Auth, out: Outside, best: Hash, pnew: Hash) returns (out': Outside)
    requires ChainOk(c) && best in c.tree && pnew in c.tree && pnew != c.genesis && c.tree[pnew].prev != Some(best)
    requires Intermediate(c, c.tree[best].trust, pnew) != pnew
    requires ReorgOk(c, auth, out, best, Intermediate(c, c.tree[best].trust, pnew))
    ensures out'.env == out.env && out'.velocityOk == out.velocityOk
    ensures BestChainOk(c, auth, out', best, pnew) && !PostponedConnect(c, out', best, pnew)
  {
    hide Intermediate, AcceptBlock;
    out' := out.(commitOk := h => h != pnew && out.commitOk(h));
    var inter := Intermediate(c, c.tree[best].trust, pnew);
    IntermediateIsFirst(c, c.tree[best].trust, pnew, pnew);
    PathFacts(c.tree, c.genesis, pnew);
    AncestorAt(c.tree, c.genesis, inter, pnew);
    AncestorAt(c.tree, c.genesis, pnew, inter);
    assert forall h :: h in c.tree && h != c.genesis ==> (BlockOk(c, out', h) <==> BlockOk(c, out, h));
    assert !Extends(c, out', pnew);
  }

  lemma HasGenesis(c: Chain)
    requires ChainOk(c)
    ensures c.genesis in c.tree && TreeOk(c.tree, c.genesis)
  {
  }

  lemma TreeAbove(c: Chain, h: Hash)
    requires ChainOk(c) && h in c.tree && h != c.genesis
    ensures TreeOk(c.tree, c.genesis) && Above(c.tree, h)
  {
  }

  lemma {:induction false} UpClimbs(c: Chain, fork: Hash, tip: Hash, list: seq<Hash>)
    requires TreeOk(c.tree, c.genesis) && fork in c.tree && tip in c.tree && ListsUp(c, fork, tip, list)
    ensures c.tree[tip].height == c.tree[fork].height + |list|
    ensures list != [] ==> tip != fork
    decreases |list|
  {
    if list != [] {
      UpClimbs(c, list[0], tip, list[1..]);
    }
  }

  lemma PostponedList(c: Chain, out: Outside, best: Hash, pnew: Hash, inter: Hash, down: seq<Hash>)
    requires ChainOk(c) && best in c.tree && pnew in c.tree && pnew != c.genesis && c.tree[pnew].prev != Some(best)
    requires inter == Intermediate(c, c.tree[best].trust, pnew) && ListsDown(c, pnew, inter, down)
    ensures var up := Reversed(down);
            && ListsUp(c, inter, pnew, up)
            && (forall i :: 0 <= i < |up| ==> up[i] in c.tree && up[i] != c.genesis)
            && (PostponedConnect(c, out, best, pnew) <==> forall i :: 0 <= i < |up| ==> Extends(c, out, up[i]))
  {
    hide Extends, Intermediate, ListsUp, ListsDown;
    var up := Reversed(down);
    DownIsUp(c, pnew, inter, down);
    forall i | 0 <= i < |up|
      ensures up[i] in c.tree && up[i] != c.genesis
      ensures IsAncestor(c.tree, c.genesis, up[i], pnew) && !IsAncestor(c.tree, c.genesis, up[i], inter)
    {
      assert up[i] in up;
      ListedAbove(c, inter, pnew, up, up[i]);
    }
    if forall i :: 0 <= i < |up| ==> Extends(c, out, up[i]) {
      forall h | h in c.tree && h != c.genesis && IsAncestor(c.tree, c.genesis, h, pnew) && !IsAncestor(c.tree, c.genesis, h, inter)
        ensures Extends(c, out, h)
      {
        ListedAbove(c, inter, pnew, up, h);
        var i :| 0 <= i < |up| && up[i] == h;
      }
    }
  }

  /** Reorganize's two lists. */
  method BranchLists(c: Chain, best: Hash, pnew: Hash, fork: Hash) returns (disconnect: seq<Hash>, connect: seq<Hash>)
    requires TreeOk(c.tree, c.genesis) && best in c.tree && pnew in c.tree && IsFork(c.tree, c.genesis, fork, best, pnew)
    ensures ListsDown(c, best, fork, disconnect) && ListsUp(c, fork, pnew, connect)
  {
    disconnect := ListDown(c.tree, c.genesis, best, fork);
    DownFromPath(c, best, fork, disconnect);
    var down := ListDown(c.tree, c.genesis, pnew, fork);
    DownFromPath(c, pnew, fork, down);
    DownIsUp(c, pnew, fork, down);
    connect := Reversed(down);
  }

  /** ConnectBlock as the single-block path uses it: no velocity check. */
  method ConnectLast(db: TxDb, c: Chain, out: Outside, s: States, h: Hash, ghost tip: Hash) returns (ok: bool, s': States)
    requires ChainOk(c) && s.Keys == c.tree.Keys && h in c.tree && h != c.genesis && Above(c.tree, h) && tip == Parent(c, h)
    requires Sound(c, tip) && SupplyOk(c, s, tip) && s[h].next == None
    requires db.activeBatch.Some? && db.View().txs == IndexAt(c, tip) && RecordsAt(c, s, db.View().blocks, tip)
    modifies db
    ensures ok <==> AcceptBlock(out.env(h), IndexAt(c, tip), c.disk, c.blocks[h], c.tree[h])
    ensures OnlyCredited(s, s', [h])
    ensures ok ==> RecordsAt(c, s', db.View().blocks, h)
    ensures ok ==> Sound(c, h) && SupplyOk(c, s', h)
    ensures ok ==> db.View().txs == IndexAt(c, h)
    ensures db.activeBatch.Some? && db.store == old(db.store)
  {
    hide AcceptBlock, IndexAt, Sound, SupplyOk, RecordsAt;
    var anyVelocity := out.(velocityOk := _ => true);
    ok, s' := ConnectNext(db, c, anyVelocity, s, h, tip);
  }

  lemma ChildIsOff(c: Chain, s: States, tip: Hash, h: Hash)
    requires MemoryOk(c, s, tip) && h in c.tree && h != c.genesis && Above(c.tree, h) && Parent(c, h) == tip
    ensures s[h].next == None && forall s' :: OnlyCredited(s, s', [h]) ==> OffChain(c, s, s', tip)
  {
    PathFacts(c.tree, c.genesis, tip);
    assert !IsAncestor(c.tree, c.genesis, h, tip);
  }

  /** On the active chain every committed block record says exactly what memory says. */
  lemma RecordsAreMemory(c: Chain, s: States, blocks: Records, tip: Hash, h: Hash)
    requires MemoryOk(c, s, tip) && RecordsAt(c, s, blocks, tip) && IsAncestor(c.tree, c.genesis, h, tip)
    ensures h in c.tree && h in blocks && blocks[h] == BlockRecord(c.tree[h], s[h])
  {
    hide NextOn;
    AncestorAt(c.tree, c.genesis, h, tip);
    assert RecordOk(c, s, blocks, tip, h);
  }

  /** What memory and database agree on: the recorded money supply of the tip is the value of all unspent
      outputs, and every output of the active chain is spent at most once, exactly when it is marked. */
  lemma SupplyIsUnspent(c: Chain, s: States, tip: Hash)
    requires MemoryOk(c, s, tip)
    ensures s[tip].supply == UnspentAt(c, tip)
    ensures forall o :: SpentOnce(TxsAt(c, tip), IndexAt(c, tip), o)
  {
    hide UnspentAt, SpentOnce, LinksOk;
    if tip == c.genesis {
      GenesisEmpty(c);
    }
    forall o { SpentExactlyOnce(c, tip, o); }
  }

  // ----- the tree grows

  /** The index entry of a new block: one above its parent, with its own trust on top of the parent's. */
  function NewEntry(tree: Tree, block: Block, file: nat, blockPos: nat, trust: int): BlockIndex
    requires block.prev in tree
  {
    BlockIndex(Some(block.prev), tree[block.prev].height + 1, file, blockPos, tree[block.prev].trust + trust)
  }

  // ----- trust

  /** The own trust of these blocks together. */
  ghost function TrustOf(own: map<Hash, int>, path: seq<Hash>): int
    requires forall i :: 0 <= i < |path| ==> path[i] in own
  {
    if path == [] then 0 else TrustOf(own, path[..|path| - 1]) + own[path[|path| - 1]]
  }

  /** A block's trust is that of all blocks of its branch together. */
  ghost predicate TrustAt(tree: Tree, genesis: Hash, own: map<Hash, int>, h: Hash)
    requires TreeOk(tree, genesis) && h in tree && own.Keys == tree.Keys
  {
    PathFacts(tree, genesis, h);
    tree[h].trust == TrustOf(own, Path(tree, genesis, h))
  }

  ghost predicate TrustAdds(tree: Tree, genesis: Hash, own: map<Hash, int>) {
    TreeOk(tree, genesis) && own.Keys == tree.Keys && forall h :: h in tree ==> TrustAt(tree, genesis, own, h)
  }

  lemma {:induction false} TrustKept(own: map<Hash, int>, own': map<Hash, int>, path: seq<Hash>)
    requires forall i :: 0 <= i < |path| ==> path[i] in own && path[i] in own' && own'[path[i]] == own[path[i]]
    ensures TrustOf(own', path) == TrustOf(own, path)
  {
    if path != [] {
      TrustKept(own, own', path[..|path| - 1]);
    }
  }

  /** A new leaf that adds its own trust to its parent's keeps trust additive. */
  lemma TrustGrows(c: Chain, c': Chain, own: map<Hash, int>, h: Hash, parent: Hash, trust: int)
    requires Within(c, c') && TrustAdds(c.tree, c.genesis, own) && h !in c.tree && parent in c.tree
    requires c'.tree.Keys == c.tree.Keys + {h} && c'.tree[h].prev == Some(parent) && c'.tree[h].trust == c.tree[parent].trust + trust
    ensures TrustAdds(c'.tree, c'.genesis, own[h := trust])
  {
    hide TrustOf, KeepsDisk;
    var own' := own[h := trust];
    forall a | a in c.tree
      ensures a in c'.tree && TrustAt(c'.tree, c'.genesis, own', a)
    {
      PathFacts(c.tree, c.genesis, a);
      assert TrustAt(c.tree, c.genesis, own, a);
      WithinMeans(c, c', a);
      TrustKept(own, own', Path(c.tree, c.genesis, a));
    }
    WithinMeans(c, c', parent);
    TrustOnTop(c'.tree, c'.genesis, own', h, parent);
  }

  lemma TrustAtGenesis(tree: Tree, genesis: Hash, own: map<Hash, int>)
    requires TreeOk(tree, genesis) && tree.Keys == own.Keys == {genesis} && tree[genesis].trust == own[genesis]
    ensures TrustAdds(tree, genesis, own)
  {
    assert Path(tree, genesis, genesis) == [genesis] && [genesis][..0] == [];
    assert TrustOf(own, [genesis]) == TrustOf(own, [genesis][..0]) + own[genesis];
  }

  lemma TrustOnTop(tree: Tree, genesis: Hash, own: map<Hash, int>, h: Hash, parent: Hash)
    requires TreeOk(tree, genesis) && own.Keys == tree.Keys && h in tree && h != genesis && tree[h].prev == Some(parent) && parent in tree
    requires TrustAt(tree, genesis, own, parent) && tree[h].trust == tree[parent].trust + own[h]
    ensures TrustAt(tree, genesis, own, h)
  {
    assert Above(tree, h);
    var p := Path(tree, genesis, h);
    PathFacts(tree, genesis, h);
    assert p[..|p| - 1] == Path(tree, genesis, parent);
  }

  lemma WithinMeans(c: Chain, c': Chain, a: Hash)
    requires Within(c, c') && a in c.tree
    ensures TreeOk(c.tree, c.genesis) && TreeOk(c'.tree, c'.genesis) && c.genesis == c'.genesis
    ensures a in c'.tree && c'.tree[a] == c.tree[a] && Path(c'.tree, c'.genesis, a) == Path(c.tree, c.genesis, a)
  {
    BranchKept(c, c', a);
  }

  ghost predicate KeepsDisk(disk: Disk, disk': Disk) {
    forall p :: p in disk ==> p in disk' && disk'[p] == disk[p]
  }

  /** c' has everything c has. */
  ghost predicate Within(c: Chain, c': Chain) {
    && TreeOk(c.tree, c.genesis) && TreeOk(c'.tree, c'.genesis) && c.genesis == c'.genesis
    && c.blocks.Keys == c.tree.Keys && c'.blocks.Keys == c'.tree.Keys
    && (forall h :: h in c.tree ==> h in c'.tree && c'.tree[h] == c.tree[h] && c'.blocks[h] == c.blocks[h])
    && KeepsDisk(c.disk, c'.disk)
  }

  /** What is said of a branch does not change when the tree grows elsewhere. */
  lemma {:induction false} BranchKept(c: Chain, c': Chain, h: Hash)
    requires Within(c, c') && h in c.tree
    ensures Path(c'.tree, c'.genesis, h) == Path(c.tree, c.genesis, h)
    ensures TxsAt(c', h) == TxsAt(c, h) && IndexAt(c', h) == IndexAt(c, h) && (Sound(c', h) <==> Sound(c, h))
    decreases c.tree[h].height
  {
    hide BlockSpends, ConnectTxs, Places;
    if h != c.genesis {
      assert Above(c.tree, h) && Above(c'.tree, h);
      BranchKept(c, c', Parent(c, h));
    }
  }

  lemma StillOnDisk(disk: Disk, disk': Disk, vtx: seq<Tx>, at: seq<DiskTxPos>)
    requires KeepsDisk(disk, disk') && OnDisk(disk, vtx, at)
    ensures OnDisk(disk', vtx, at)
  {
  }

  lemma {:induction false} SupplyKept(c: Chain, c': Chain, s: States, s': States, h: Hash)
    requires Within(c, c') && ChainOk(c) && ChainOk(c') && h in c.tree
    requires s.Keys == c.tree.Keys && s'.Keys == c'.tree.Keys && forall a :: a in s ==> s'[a] == s[a]
    requires Sound(c, h) && SupplyOk(c, s, h)
    ensures Sound(c', h) && SupplyOk(c', s', h)
    decreases c.tree[h].height
  {
    hide BlockSpends, ConnectTxs, Places, Stored, NewIdsAt;
    BranchKept(c, c', h);
    if h != c.genesis {
      assert Above(c.tree, h) && Above(c'.tree, h);
      SupplyKept(c, c', s, s', Parent(c, h));
    }
  }

  /** The chain with one more block on it. */
  ghost function WithBlock(c: Chain, block: Block, file: nat, blockPos: nat, trust: int, stored: Disk): Chain
    requires block.prev in c.tree
  {
    Chain(c.tree[block.hash := NewEntry(c.tree, block, file, blockPos, trust)], c.genesis, c.blocks[block.hash := block], stored)
  }

  /** The block is on disk where it is said to be, and repeats no id of its branch. */
  ghost predicate Arrives(c: Chain, block: Block, file: nat, blockPos: nat, trust: int, stored: Disk)
    requires TreeOk(c.tree, c.genesis) && c.blocks.Keys == c.tree.Keys && block.prev in c.tree
  {
    && KeepsDisk(c.disk, stored)
    && OnDisk(stored, block.vtx, Places(NewEntry(c.tree, block, file, blockPos, trust), block.vtx))
    && Ids(block.vtx) !! Ids(TxsAt(c, block.prev))
  }

  /** The records of the active chain stay exact when a block joins elsewhere, recorded or not. */
  lemma RecordsKept(c: Chain, c': Chain, s: States, s': States, blocks: Records, tip: Hash, fresh': Hash, record: BlockRecord)
    requires Within(c, c') && tip in c.tree && fresh' !in c.tree && s.Keys == c.tree.Keys && s'.Keys == c'.tree.Keys
    requires (forall h :: h in s ==> s'[h] == s[h]) && RecordsAt(c, s, blocks, tip)
    ensures RecordsAt(c', s', blocks, tip) && RecordsAt(c', s', blocks[fresh' := record], tip)
  {
    BranchKept(c, c', tip);
    forall h | h in c'.tree && IsAncestor(c'.tree, c'.genesis, h, tip)
      ensures RecordOk(c', s', blocks, tip, h) && h != fresh'
    {
      AncestorAt(c.tree, c.genesis, h, tip);
      assert RecordOk(c, s, blocks, tip, h);
    }
  }

  /** A new leaf on top of any block keeps the chain well formed and the active chain as it was. */
  lemma Grown(c: Chain, c': Chain, s: States, tip: Hash, block: Block, entry: BlockIndex)
    requires MemoryOk(c, s, tip) && block.hash !in c.tree && block.prev in c.tree
    requires entry.prev == Some(block.prev) && entry.height == c.tree[block.prev].height + 1
    requires c'.genesis == c.genesis && KeepsDisk(c.disk, c'.disk)
    requires c'.tree == c.tree[block.hash := entry] && c'.blocks == c.blocks[block.hash := block]
    requires OnDisk(c'.disk, block.vtx, Places(entry, block.vtx)) && Ids(block.vtx) !! Ids(TxsAt(c, block.prev))
    ensures MemoryOk(c', s[block.hash := BlockState(None, 0, 0)], tip) && Within(c, c')
    ensures IndexAt(c', tip) == IndexAt(c, tip)
  {
    hide Stored, NewIdsAt, OnDisk, Sound, SupplyOk, IndexAt, TxsAt, LinksOk;
    GrownChain(c, c', block, entry);
    var s' := s[block.hash := BlockState(None, 0, 0)];
    SupplyKept(c, c', s, s', tip);
    BranchKept(c, c', tip);
    LinksKept(c, c', s, s', tip);
  }

  lemma LinksKept(c: Chain, c': Chain, s: States, s': States, tip: Hash)
    requires Within(c, c') && tip in c.tree && s.Keys == c.tree.Keys && s'.Keys == c'.tree.Keys && LinksOk(c, s, tip)
    requires forall h :: h in s' ==> if h in s then s'[h] == s[h] else s'[h].next == None
    ensures LinksOk(c', s', tip)
  {
    BranchKept(c, c', tip);
    forall h | h in c'.tree
      ensures s'[h].next == NextOn(c', tip, h)
    {
      if h in c.tree {
        assert s[h].next == NextOn(c, tip, h);
      } else {
        AncestorAt(c.tree, c.genesis, h, tip);
      }
    }
  }

  lemma GrownChain(c: Chain, c': Chain, block: Block, entry: BlockIndex)
    requires ChainOk(c) && block.hash !in c.tree && block.prev in c.tree
    requires entry.prev == Some(block.prev) && entry.height == c.tree[block.prev].height + 1
    requires c'.genesis == c.genesis && KeepsDisk(c.disk, c'.disk)
    requires c'.tree == c.tree[block.hash := entry] && c'.blocks == c.blocks[block.hash := block]
    requires OnDisk(c'.disk, block.vtx, Places(entry, block.vtx)) && Ids(block.vtx) !! Ids(TxsAt(c, block.prev))
    ensures ChainOk(c') && Within(c, c')
  {
    hide Places, TxsAt, Ids;
    forall h | h in c'.tree && h != c'.genesis
      ensures Above(c'.tree, h)
    {
      if h != block.hash { assert Above(c.tree, h); }
    }
    forall h | h in c'.tree
      ensures h != c'.genesis ==> Stored(c', h)
      ensures NewIdsAt(c', h)
    {
      if h == block.hash {
        BranchKept(c, c', block.prev);
      } else if h != c.genesis {
        assert Above(c.tree, h) && Stored(c, h) && NewIdsAt(c, h);
        BranchKept(c, c', Parent(c, h));
        StillOnDisk(c.disk, c'.disk, c.blocks[h].vtx, Places(c.tree[h], c.blocks[h].vtx));
      }
    }
  }

  /** A tree of one block: its chain is valid, and nothing is indexed. */
  lemma OnlyGenesis(c: Chain, s: States, blocks: Records)
    requires c.tree.Keys == c.blocks.Keys == s.Keys == {c.genesis} && c.tree[c.genesis].prev == None && c.tree[c.genesis].height == 0
    requires s[c.genesis] == BlockState(None, 0, 0)
    requires c.genesis in blocks && blocks[c.genesis] == BlockRecord(c.tree[c.genesis], s[c.genesis])
    ensures MemoryOk(c, s, c.genesis) && IndexAt(c, c.genesis) == map[] && RecordsAt(c, s, blocks, c.genesis)
  {
    assert Path(c.tree, c.genesis, c.genesis) == [c.genesis];
  }

  class ActiveChain {
    const genesis: Hash
    const db: TxDb
    var tree: Tree                 // mapBlockIndex, the unchanging fields
    var states: States             // mapBlockIndex, the changing fields
    var blocks: map<Hash, Block>   // the block files, by block
    var disk: Disk                 // the block files, by transaction position
    var best: Hash                 // pindexBest
    ghost var own: map<Hash, int>  // GetBlockTrust of every block

    ghost function Fixed(): Chain
      reads this
    {
      Chain(tree, genesis, blocks, disk)
    }

    /** Memory and committed database agree that the active chain ends in `tip`. */
    ghost predicate EndsIn(tip: Hash)
      reads this, db
    {
      && MemoryOk(Fixed(), states, tip)
      && db.activeBatch.None?
      && db.store.txs == IndexAt(Fixed(), tip)
      && db.store.best == Some(tip)
      && RecordsAt(Fixed(), states, db.store.blocks, tip)
    }

    ghost predicate Valid()
      reads this, db
    {
      EndsIn(best) && TrustAdds(tree, genesis, own)
    }

    /** AddToBlockIndex of the genesis block and SetBestChain's first branch: the block is recorded and best, and
        nothing of it is indexed. */
    constructor (block: Block, file: nat, blockPos: nat, trust: int)
      ensures fresh(db) && Valid() && best == genesis == block.hash && own == map[genesis := trust]
      ensures Fixed() == Chain(map[genesis := BlockIndex(None, 0, file, blockPos, trust)], genesis, map[genesis := block], map[])
      ensures states == map[genesis := BlockState(None, 0, 0)]
      ensures db.store.blocks == map[genesis := BlockRecord(tree[genesis], states[genesis])]
    {
      hide MemoryOk, RecordsAt, IndexAt, TrustAdds;
      genesis := block.hash;
      tree := map[block.hash := BlockIndex(None, 0, file, blockPos, trust)];
      states := map[block.hash := BlockState(None, 0, 0)];
      blocks := map[block.hash := block];
      disk := map[];
      best := block.hash;
      own := map[block.hash := trust];
      db := new TxDb();
      new;
      db.TxnBegin();
      db.WriteBlockIndex(block.hash, BlockRecord(tree[block.hash], states[block.hash]));
      var recorded := db.TxnCommit(true);
      db.TxnBegin();
      db.WriteHashBestChain(block.hash);
      var _ := db.TxnCommit(true);
      TrustAtGenesis(tree, genesis, own);
      OnlyGenesis(Fixed(), states, db.store.blocks);
    }

    /** Disconnects back to the fork and connects the new branch, all in one batch. */
    method MoveTo(out: Outside, disconnect: seq<Hash>, connect: seq<Hash>, pnew: Hash, ghost fork: Hash) returns (ok: bool)
      requires MemoryOk(Fixed(), states, best) && pnew in tree && IsFork(tree, genesis, fork, best, pnew)
      requires ListsDown(Fixed(), best, fork, disconnect) && ListsUp(Fixed(), fork, pnew, connect)
      requires db.activeBatch.Some? && db.View() == db.store && db.store.txs == IndexAt(Fixed(), best)
      requires RecordsAt(Fixed(), states, db.store.blocks, best)
      modifies this`states, db
      ensures ok <==> BranchConnects(Fixed(), out, best, pnew) && out.commitOk(pnew)
      ensures ok ==> EndsIn(pnew)
      ensures !ok ==> MemoryOk(Fixed(), states, best) && OnlyCredited(old(states), states, connect)
      ensures !ok ==> OffChain(Fixed(), old(states), states, best) && db.store == old(db.store)
    {
      hide BranchConnects, SupplyOk, LinksOk, BlockOk, IndexAt, Sound, ListsDown, ListsUp, IsFork, RecordsAt, OffChain, Stored, NewIdsAt;
      ghost var c := Fixed();
      var chain := Chain(tree, genesis, blocks, disk);
      SupplyDown(c, states, best, fork, disconnect);
      ConnectsList(c, out, fork, best, pnew, connect);
      BranchIsOff(c, states, best, fork, pnew, connect);
      var undone := DisconnectBranch(db, chain, states, disconnect, best, fork);
      if !undone {
        return false;
      }
      var connected, credited := ConnectBranch(db, chain, out, states, connect, fork, pnew);
      MemoryKept(c, states, credited, best);
      states := credited;
      if !connected {
        return false;
      }
      db.WriteHashBestChain(pnew);
      var written := db.TxnCommit(out.commitOk(pnew));
      if !written {
        return false;
      }
      var unlinked := Unlink(chain, states, disconnect, best, fork);
      var linked := Link(chain, unlinked, connect, fork, pnew);
      SupplyAlong(c, states, linked, pnew);
      RecordsSame(c, states, linked, db.store.blocks, pnew);
      states := linked;
      ok := true;
    }

    /** Moves the active chain to a tip that is not a child of the old one. A reorganisation that fails
        leaves every committed record as it was; one that succeeds forks at the highest common ancestor,
        and never below the rolling checkpoint. */
    method Reorganize(auth: Auth, out: Outside, pnew: Hash) returns (ok: bool, ghost fork: Hash)
      requires MemoryOk(Fixed(), states, best) && pnew in tree && WalkStays(auth, tree[best].height, tree[pnew].height)
      requires db.activeBatch.Some? && db.View() == db.store && db.store.txs == IndexAt(Fixed(), best)
      requires RecordsAt(Fixed(), states, db.store.blocks, best)
      modifies this`states, db
      ensures ok <==> ReorgOk(Fixed(), auth, out, best, pnew)
      ensures ok ==> EndsIn(pnew)
      ensures ok ==> IsFork(tree, genesis, fork, best, pnew)
      ensures ok ==> tree[fork].height >= CheckpointHeight(auth, tree[best].height, tree[pnew].height)
      ensures !ok ==> MemoryOk(Fixed(), states, best) && OffChain(Fixed(), old(states), states, best) && db.store == old(db.store)
    {
      hide BranchConnects, SupplyOk, LinksOk, IndexAt, Sound, IsFork, PassesRolling, RecordsAt;
      ok, fork := false, best;
      var chain := Chain(tree, genesis, blocks, disk);
      var allowed := MayReorganize(chain, auth, best, pnew);
      if !allowed {
        return;
      }
      var found := FindFork(tree, genesis, best, pnew);
      if found.None? {
        return;
      }
      fork := found.value;
      if !auth.branchSupplyOk {
        return;
      }
      ForkIsShallow(chain, auth, fork, best, pnew);
      var disconnect, connect := BranchLists(chain, best, pnew, found.value);
      ok := MoveTo(out, disconnect, connect, pnew, fork);
    }

    /** Connects a block on top of the current end of the chain and commits. */
    method SetBestChainInner(out: Outside, h: Hash, ghost tip: Hash) returns (ok: bool)
      requires MemoryOk(Fixed(), states, tip) && h in tree && h != genesis && Above(tree, h) && Parent(Fixed(), h) == tip
      requires db.activeBatch.Some? && db.View() == db.store
      requires db.store.txs == IndexAt(Fixed(), tip) && db.store.best == Some(tip) && RecordsAt(Fixed(), states, db.store.blocks, tip)
      modifies this`states, db
      ensures ok <==> Extends(Fixed(), out, h)
      ensures EndsIn(if ok then h else tip)
      ensures !ok ==> db.store == old(db.store) && OffChain(Fixed(), old(states), states, tip)
    {
      hide AcceptBlock, SupplyOk, LinksOk, IndexAt, Sound, RecordsAt, OffChain, Stored, NewIdsAt;
      var chain := Chain(tree, genesis, blocks, disk);
      ChildIsOff(chain, states, tip, h);
      var accepted, credited := ConnectLast(db, chain, out, states, h, tip);
      MemoryKept(chain, states, credited, tip);
      states := credited;
      if !accepted {
        db.TxnAbort();
        return false;
      }
      db.WriteHashBestChain(h);
      var written := db.TxnCommit(out.commitOk(h));
      if !written {
        return false;
      }
      var prev := tree[h].prev;
      LinkTip(chain, states, h);
      ghost var before := states;
      states := states[prev.value := states[prev.value].(next := Some(h))];
      SupplyAlong(chain, before, states, h);
      RecordsSame(chain, before, states, db.store.blocks, h);
      ok := true;
    }

    /** Connects the postponed blocks, stopping at the first that fails; that failure is not reported. */
    method ConnectPostponed(out: Outside, list: seq<Hash>, ghost inter: Hash, ghost pnew: Hash) returns (ghost reached: Hash)
      requires EndsIn(inter) && pnew in tree && ListsUp(Fixed(), inter, pnew, list)
      requires forall i :: 0 <= i < |list| ==> list[i] in tree && list[i] != genesis
      modifies this`states, db
      ensures EndsIn(reached)
      ensures reached == pnew <==> forall i :: 0 <= i < |list| ==> Extends(Fixed(), out, list[i])
    {
      hide SupplyOk, LinksOk, IndexAt, Sound, Extends, Stored, NewIdsAt, RecordsAt, OffChain;
      ghost var c := Fixed();
      reached := inter;
      for i := 0 to |list|
        invariant Fixed() == c && EndsIn(reached) && ListsUp(c, reached, pnew, list[i..])
        invariant forall j :: 0 <= j < i ==> Extends(c, out, list[j])
      {
        UpHead(c, reached, pnew, list[i..]);
        db.TxnBegin();
        var ok := SetBestChainInner(out, list[i], reached);
        if !ok {
          UpClimbs(c, reached, pnew, list[i..]);
          break;
        }
        reached := list[i];
      }
    }

    /** Makes `pnew` the best block. If it does not, nothing committed changes. If it does, memory and
        database agree exactly when every postponed block could be connected too. */
    method SetBestChain(auth: Auth, out: Outside, pnew: Hash) returns (ok: bool, ghost reached: Hash)
      requires Valid() && pnew in tree && pnew != genesis && MayWalk(Fixed(), auth, best, pnew)
      modifies this`states, this`best, db
      ensures ok <==> BestChainOk(Fixed(), auth, out, old(best), pnew)
      ensures !ok ==> Valid() && best == old(best) && db.store == old(db.store) && OffChain(Fixed(), old(states), states, best)
      ensures ok ==> best == pnew && EndsIn(reached)
      ensures ok ==> (Valid() <==> PostponedConnect(Fixed(), out, old(best), pnew))
    {
      hide SupplyOk, LinksOk, IndexAt, Sound, Extends, ReorgOk, ChainOk, RecordsAt;
      var chain := Chain(tree, genesis, blocks, disk);
      reached := best;
      assert Above(tree, pnew) by { TreeAbove(chain, pnew); }
      db.TxnBegin();
      if tree[pnew].prev == Some(best) {
        ok := SetBestChainInner(out, pnew, best);
        if !ok {
          return;
        }
        reached := pnew;
      } else {
        TreeAbove(chain, pnew);
        var inter, postponed := FindIntermediate(chain, tree[best].trust, pnew);
        ghost var fork;
        ghost var before := states;
        ok, fork := Reorganize(auth, out, inter);
        if !ok {
          MemoryKept(chain, before, states, best);
          db.TxnAbort();
          return;
        }
        var connect := Reversed(postponed);
        PostponedList(chain, out, best, pnew, inter, postponed);
        reached := ConnectPostponed(out, connect, inter, pnew);
      }
      best := pnew;
    }

    /** Puts a new block into the tree, wherever it belongs, and commits its record. */
    method Insert(block: Block, file: nat, blockPos: nat, trust: int, stored: Disk, recordOk: bool) returns (written: bool)
      requires Valid() && block.hash !in tree && block.prev in tree && Arrives(Fixed(), block, file, blockPos, trust, stored)
      modifies this, db
      ensures Valid() && best == old(best) && written == recordOk
      ensures Fixed() == WithBlock(old(Fixed()), block, file, blockPos, trust, stored)
      ensures own == old(own)[block.hash := trust] && states == old(states)[block.hash := BlockState(None, 0, 0)]
      ensures block.hash in tree && block.hash != genesis && tree[block.hash].trust == old(tree)[block.prev].trust + trust
      ensures db.store == if recordOk
                          then old(db.store).(blocks := old(db.store).blocks[block.hash := BlockRecord(tree[block.hash], BlockState(None, 0, 0))])
                          else old(db.store)
    {
      hide TrustAdds, RecordsAt, SupplyOk, LinksOk, IndexAt, Sound, ChainOk, TxsAt, Within;
      ghost var c := Fixed();
      HasGenesis(c);
      var entry := NewEntry(tree, block, file, blockPos, trust);
      tree := tree[block.hash := entry];
      blocks := blocks[block.hash := block];
      disk := stored;
      states := states[block.hash := BlockState(None, 0, 0)];
      own := own[block.hash := trust];
      Grown(c, Fixed(), old(states), best, block, entry);
      TrustGrows(c, Fixed(), old(own), block.hash, block.prev, trust);
      RecordsKept(c, Fixed(), old(states), states, db.store.blocks, best, block.hash, BlockRecord(entry, BlockState(None, 0, 0)));
      db.TxnBegin();
      db.WriteBlockIndex(block.hash, BlockRecord(entry, states[block.hash]));
      written := db.TxnCommit(recordOk);
    }

    /** A block, already appended to the block files and with no transaction id from its own branch,
        joins the tree and becomes best if its chain has more trust. Its record is committed first, whatever
        happens then; if that commit fails, so does the call. */
    method AddToBlockIndex(block: Block, file: nat, blockPos: nat, trust: int, stored: Disk, auth: Auth, out: Outside, recordOk: bool)
      returns (ok: bool)
      requires Valid()
      requires block.hash !in tree ==> block.prev in tree && Arrives(Fixed(), block, file, blockPos, trust, stored)
      requires block.hash !in tree && best in tree && tree[block.prev].trust + trust > tree[best].trust ==>
                 MayWalkTo(WithBlock(Fixed(), block, file, blockPos, trust, stored), auth, best, block.hash)
      modifies this, db
      ensures TrustAdds(tree, genesis, own) && old(best) in tree && best in tree && tree[best].trust >= tree[old(best)].trust
      ensures block.hash in old(tree) ==> !ok && Fixed() == old(Fixed()) && states == old(states) && own == old(own)
      ensures block.hash in old(tree) ==> Valid() && best == old(best) && db.store == old(db.store)
      ensures block.hash !in old(tree) ==> Fixed() == WithBlock(old(Fixed()), block, file, blockPos, trust, stored)
      ensures block.hash !in old(tree) ==> own == old(own)[block.hash := trust]
      ensures block.hash !in old(tree) ==> block.hash in tree && tree[block.hash].trust == old(tree)[block.prev].trust + trust
      ensures block.hash !in old(tree) && !recordOk ==> !ok && Valid() && best == old(best) && db.store == old(db.store)
      ensures block.hash !in old(tree) && recordOk ==>
        var better := tree[block.hash].trust > tree[old(best)].trust;
        var record := BlockRecord(tree[block.hash], BlockState(None, 0, 0));
        && (ok <==> !better || BecomesBest(Fixed(), auth, out, old(best), block.hash))
        && (ok ==> tree[best].trust >= tree[block.hash].trust)
        && (if ok && better then best == block.hash && (Valid() <==> AllConnect(Fixed(), out, old(best), best))
            else Valid() && best == old(best) && db.store == old(db.store).(blocks := old(db.store).blocks[block.hash := record]))
      ensures block.hash !in old(tree) && recordOk && block.prev == old(best) && trust > 0 ==>
        (ok <==> BecomesBest(Fixed(), auth, out, old(best), block.hash)) && (ok ==> best == block.hash)
    {
      hide TrustAdds, RecordsAt, SupplyOk, LinksOk, IndexAt, Sound, ChainOk, TxsAt, BestChainOk, PostponedConnect, OffChain, Arrives;
      if block.hash in tree {
        return false;
      }
      var written := Insert(block, file, blockPos, trust, stored, recordOk);
      HasGenesis(Fixed());
      if !written {
        return false;
      }
      ok := true;
      if tree[block.hash].trust > tree[best].trust {
        ghost var reached;
        ok, reached := SetBestChain(auth, out, block.hash);
      }
    }
  }
}
