/** Block locators: a short list of blocks by which another node finds a recent common block. */
module Locator {
  import opened Primitives
  import opened BlockTree
  import opened ChainSpec
  import opened ChainMoves

  /** How far back the i-th entry of a locator lies: single steps first, then doubling ones. */
  function Distance(i: nat): nat {
    if i <= 10 then i else 9 + Pow2(i - 10)
  }

  /** The step taken after the i-th entry. */
  lemma StepBack(i: nat)
    ensures Distance(i + 1) == Distance(i) + if i < 10 then 1 else Pow2(i - 10)
    ensures Distance(i) < Distance(i + 1)
  {
  }

  /** What a locator of a block at height `top` holds: its ancestors at growing distances, then genesis. */
  ghost predicate IsLocator(tree: Tree, genesis: Hash, h: Hash, have: seq<Hash>)
    requires TreeOk(tree, genesis) && h in tree
  {
    && |have| >= 2 && have[|have| - 1] == genesis
    && Distance(|have| - 2) <= tree[h].height < Distance(|have| - 1)
    && forall i :: 0 <= i < |have| - 1 ==> Entry(tree, genesis, h, have, i)
  }

  ghost predicate Entry(tree: Tree, genesis: Hash, h: Hash, have: seq<Hash>, i: nat)
    requires TreeOk(tree, genesis) && h in tree && i < |have|
  {
    |Path(tree, genesis, h)| == tree[h].height + 1 && Distance(i) <= tree[h].height &&
    have[i] == Path(tree, genesis, h)[tree[h].height - Distance(i)]
  }

  /** Walks back `steps` blocks, or off the end of the chain. */
  method Back(tree: Tree, ghost genesis: Hash, from: Option<Hash>, steps: nat, ghost h: Hash, ghost distance: nat) returns (r: Option<Hash>)
    requires TreeOk(tree, genesis) && h in tree && |Path(tree, genesis, h)| == tree[h].height + 1
    requires from == AtDistance(tree, genesis, h, distance)
    ensures r == AtDistance(tree, genesis, h, distance + steps)
  {
    r := from;
    for i := 0 to steps
      invariant r == AtDistance(tree, genesis, h, distance + i)
    {
      if r.None? {
        NoneBeyond(tree, genesis, h, distance + i, distance + steps);
        return;
      }
      ParentAt(tree, genesis, h, distance + i);
      r := tree[r.value].prev;
    }
  }

  /** The ancestor of h that many blocks back, if the chain is that long. */
  ghost function AtDistance(tree: Tree, genesis: Hash, h: Hash, distance: nat): Option<Hash>
    requires TreeOk(tree, genesis) && h in tree && |Path(tree, genesis, h)| == tree[h].height + 1
  {
    if distance <= tree[h].height then Some(Path(tree, genesis, h)[tree[h].height - distance]) else None
  }

  lemma NoneBeyond(tree: Tree, genesis: Hash, h: Hash, d: nat, e: nat)
    requires TreeOk(tree, genesis) && h in tree && |Path(tree, genesis, h)| == tree[h].height + 1
    requires AtDistance(tree, genesis, h, d).None? && d <= e
    ensures AtDistance(tree, genesis, h, e).None?
  {
  }

  lemma ParentAt(tree: Tree, genesis: Hash, h: Hash, d: nat)
    requires TreeOk(tree, genesis) && h in tree && |Path(tree, genesis, h)| == tree[h].height + 1 && d <= tree[h].height
    ensures var a := Path(tree, genesis, h)[tree[h].height - d];
            a in tree && tree[a].prev == AtDistance(tree, genesis, h, d + 1)
  {
    StepDown(tree, genesis, h, tree[h].height - d);
  }

  /** CBlockLocator::Set. */
  method SetLocator(tree: Tree, genesis: Hash, h: Hash) returns (have: seq<Hash>)
    requires TreeOk(tree, genesis) && h in tree
    ensures IsLocator(tree, genesis, h, have)
  {
    PathFacts(tree, genesis, h);
    have := [];
    var step, index := 1, Some(h);
    while index.Some?
      invariant step == if |have| <= 10 then 1 else Pow2(|have| - 10)
      invariant index == AtDistance(tree, genesis, h, Distance(|have|))
      invariant |have| > 0 ==> Distance(|have| - 1) <= tree[h].height
      invariant index.None? ==> |have| > 0
      invariant forall i :: 0 <= i < |have| ==> Entry(tree, genesis, h, have, i)
      decreases if index.Some? then tree[h].height - Distance(|have|) else -1
    {
      StepBack(|have|);
      ghost var n, before := |have|, have;
      have := have + [index.value];
      forall i | 0 <= i < |have|
        ensures Entry(tree, genesis, h, have, i)
      {
        assert i < n ==> Entry(tree, genesis, h, before, i);
      }
      index := Back(tree, genesis, index, step, h, Distance(n));
      if |have| > 10 {
        step := step * 2;
      }
    }
    ghost var before := have;
    have := have + [genesis];
    forall i | 0 <= i < |have| - 1
      ensures Entry(tree, genesis, h, have, i)
    {
      assert Entry(tree, genesis, h, before, i);
    }
  }

  /** CBlockLocator::GetBlockIndex: the first listed block on the active chain. */
  method GetBlockIndex(c: Chain, s: States, best: Hash, have: seq<Hash>) returns (r: Hash)
    requires TreeOk(c.tree, c.genesis) && s.Keys == c.tree.Keys && best in c.tree && LinksOk(c, s, best)
    ensures r in c.tree && IsAncestor(c.tree, c.genesis, r, best)
    ensures r == c.genesis || r in have
    ensures forall i :: 0 <= i < |have| && (forall j :: 0 <= j < i ==> have[j] != r) && have[i] != r ==>
              !(have[i] in c.tree && IsAncestor(c.tree, c.genesis, have[i], best))
  {
    for k := 0 to |have|
      invariant forall j :: 0 <= j < k ==> !(have[j] in c.tree && IsAncestor(c.tree, c.genesis, have[j], best))
    {
      if have[k] in c.tree {
        InMainChain(c, s, best, have[k]);
        if s[have[k]].next.Some? || have[k] == best {
          return have[k];
        }
      }
    }
    PathFacts(c.tree, c.genesis, best);
    r := c.genesis;
  }

  lemma {:induction false} DistanceGrows(i: nat, j: nat)
    requires i <= j
    ensures Distance(i) <= Distance(j) && i <= Distance(i)
  {
    if i < j {
      StepBack(j - 1);
      DistanceGrows(i, j - 1);
    } else if i > 0 {
      DistanceGrows(i - 1, i - 1);
      StepBack(i - 1);
    }
  }

  /** The first entry at least d back: exactly d back up to 11, less than twice as far beyond. */
  lemma {:induction false} FirstEntryPast(d: nat) returns (i: nat)
    ensures d <= Distance(i) && (i > 0 ==> Distance(i - 1) < d)
    ensures d <= 11 ==> Distance(i) == d
    ensures d > 11 ==> Distance(i) < 2 * d
  {
    if d <= 10 {
      i := d;
    } else {
      i := 11;
      while Distance(i) < d
        invariant i >= 11 && Distance(i - 1) < d
        invariant i > 11 ==> d > 11
        decreases d - Distance(i)
      {
        StepBack(i);
        i := i + 1;
      }
    }
  }

  /** The block a locator finds is an ancestor of both tips. If the branches part within 11 blocks it is the
      very fork; otherwise it lies less than twice as far back. */
  lemma LocatorFindsFork(c: Chain, best: Hash, h: Hash, have: seq<Hash>, r: Hash, fork: Hash)
    requires TreeOk(c.tree, c.genesis) && best in c.tree && h in c.tree && IsLocator(c.tree, c.genesis, h, have)
    requires IsFork(c.tree, c.genesis, fork, h, best)
    requires r in c.tree && IsAncestor(c.tree, c.genesis, r, best) && (r == c.genesis || r in have)
    requires forall i :: 0 <= i < |have| && (forall j :: 0 <= j < i ==> have[j] != r) && have[i] != r ==>
               !(have[i] in c.tree && IsAncestor(c.tree, c.genesis, have[i], best))
    ensures IsAncestor(c.tree, c.genesis, r, h) && c.tree[fork].height <= c.tree[h].height
    ensures var d, e := c.tree[h].height - c.tree[fork].height, c.tree[h].height - c.tree[r].height;
            d <= e && (d <= 11 ==> r == fork) && (d > 11 ==> e < 2 * d)
  {
    var tree, g := c.tree, c.genesis;
    PathFacts(tree, g, h);
    PathFacts(tree, g, best);
    AncestorAt(tree, g, fork, h);
    LocatorEntryIsAncestor(tree, g, h, have, r);
    AncestorAt(tree, g, r, fork);
    var d := tree[h].height - tree[fork].height;
    var i := FirstEntryPast(d);
    if i < |have| - 1 {
      FirstHit(c, best, h, have, r, fork, i);
    } else {
      EndOfList(tree, g, h, have, i, d);
    }
    AncestorAt(tree, g, r, h);
  }

  lemma LocatorEntryIsAncestor(tree: Tree, genesis: Hash, h: Hash, have: seq<Hash>, r: Hash)
    requires TreeOk(tree, genesis) && h in tree && IsLocator(tree, genesis, h, have) && (r == genesis || r in have)
    ensures IsAncestor(tree, genesis, r, h)
  {
    PathFacts(tree, genesis, h);
    if r != genesis {
      var i :| 0 <= i < |have| && have[i] == r;
      assert Entry(tree, genesis, h, have, i);
    }
  }

  /** The entry just past the fork is on the active chain, and no earlier one is. */
  lemma FirstHit(c: Chain, best: Hash, h: Hash, have: seq<Hash>, r: Hash, fork: Hash, i: nat)
    requires TreeOk(c.tree, c.genesis) && best in c.tree && h in c.tree && IsLocator(c.tree, c.genesis, h, have)
    requires IsFork(c.tree, c.genesis, fork, h, best) && i < |have| - 1 && c.tree[fork].height <= c.tree[h].height
    requires var d := c.tree[h].height - c.tree[fork].height; d <= Distance(i) && (i > 0 ==> Distance(i - 1) < d)
    requires r in c.tree && IsAncestor(c.tree, c.genesis, r, best) && (r == c.genesis || r in have)
    requires forall k :: 0 <= k < |have| && (forall j :: 0 <= j < k ==> have[j] != r) && have[k] != r ==>
               !(have[k] in c.tree && IsAncestor(c.tree, c.genesis, have[k], best))
    ensures c.tree[h].height - c.tree[r].height == Distance(i)
  {
    var tree, g := c.tree, c.genesis;
    PathFacts(tree, g, h);
    assert Entry(tree, g, h, have, i);
    EntryBelowFork(tree, g, h, best, fork, have, i);
    forall j | 0 <= j < i
      ensures have[j] != r
    {
      assert Entry(tree, g, h, have, j);
      DistanceGrows(j, i - 1);
      EntryAboveFork(tree, g, h, best, fork, have, j);
    }
  }

  lemma EntryBelowFork(tree: Tree, g: Hash, h: Hash, best: Hash, fork: Hash, have: seq<Hash>, i: nat)
    requires TreeOk(tree, g) && best in tree && h in tree && IsFork(tree, g, fork, h, best)
    requires i < |have| && Entry(tree, g, h, have, i) && tree[h].height - Distance(i) <= tree[fork].height
    ensures have[i] in tree && IsAncestor(tree, g, have[i], best)
  {
    PathFacts(tree, g, h);
    AncestorAt(tree, g, fork, h);
    PathPrefix(tree, g, h, tree[fork].height);
    assert have[i] == Path(tree, g, fork)[tree[h].height - Distance(i)];
    AncestorTrans(tree, g, have[i], fork, best);
  }

  lemma EntryAboveFork(tree: Tree, g: Hash, h: Hash, best: Hash, fork: Hash, have: seq<Hash>, i: nat)
    requires TreeOk(tree, g) && best in tree && h in tree && IsFork(tree, g, fork, h, best)
    requires i < |have| && Entry(tree, g, h, have, i) && tree[h].height - Distance(i) > tree[fork].height
    ensures have[i] in tree && !IsAncestor(tree, g, have[i], best)
  {
    PathFacts(tree, g, h);
    assert IsAncestor(tree, g, have[i], h);
    AncestorAt(tree, g, have[i], fork);
  }

  /** If the list ends before the fork is passed, genesis is near enough. */
  lemma EndOfList(tree: Tree, g: Hash, h: Hash, have: seq<Hash>, i: nat, d: nat)
    requires TreeOk(tree, g) && h in tree && IsLocator(tree, g, h, have) && i >= |have| - 1 && d <= tree[h].height
    requires d <= Distance(i) && (i > 0 ==> Distance(i - 1) < d)
    ensures tree[h].height < Distance(i) && (d <= 11 ==> Distance(i) != d || tree[h].height < d)
  {
    DistanceGrows(|have| - 1, i);
  }

  /** A locator is logarithmically short. */
  lemma LocatorIsShort(tree: Tree, genesis: Hash, h: Hash, have: seq<Hash>)
    requires TreeOk(tree, genesis) && h in tree && IsLocator(tree, genesis, h, have)
    ensures |have| >= 13 ==> Pow2(|have| - 12) + 9 <= tree[h].height
    ensures |have| <= tree[h].height + 2
  {
    DistanceGrows(|have| - 2, |have| - 2);
  }
}
