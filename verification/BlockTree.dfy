/** The block tree seen through its `pprev` links: paths, forks, rolling checkpoints. */
module BlockTree {
  import opened Primitives

  type Tree = map<Hash, BlockIndex>

  const REORG_MAX_DEPTH := 1
  const TEMP_CHECKPOINT_DEPTH := 120

  /** Every block but the genesis block sits one above a block of the tree. */
  ghost predicate TreeOk(tree: Tree, genesis: Hash) {
    && genesis in tree && tree[genesis].prev == None && tree[genesis].height == 0
    && forall h :: h in tree && h != genesis ==> Above(tree, h)
  }

  predicate Above(tree: Tree, h: Hash)
    requires h in tree
  {
    tree[h].prev.Some? && tree[h].prev.value in tree && tree[tree[h].prev.value].height + 1 == tree[h].height
  }

  /** The branch that ends in h, genesis block first. */
  ghost function Path(tree: Tree, genesis: Hash, h: Hash): seq<Hash>
    requires TreeOk(tree, genesis) && h in tree
    decreases tree[h].height
  {
    if h == genesis then [h] else assert Above(tree, h); Path(tree, genesis, tree[h].prev.value) + [h]
  }

  ghost predicate IsAncestor(tree: Tree, genesis: Hash, a: Hash, h: Hash)
    requires TreeOk(tree, genesis) && h in tree
  {
    a in Path(tree, genesis, h)
  }

  lemma {:induction false} PathFacts(tree: Tree, genesis: Hash, h: Hash)
    requires TreeOk(tree, genesis) && h in tree
    ensures var p := Path(tree, genesis, h);
            && |p| == tree[h].height + 1 && p[0] == genesis && p[|p| - 1] == h
            && forall i :: 0 <= i < |p| ==> p[i] in tree && tree[p[i]].height == i
    decreases tree[h].height
  {
    if h != genesis {
      assert Above(tree, h);
      PathFacts(tree, genesis, tree[h].prev.value);
    }
  }

  /** A block's branch is the part of any later branch up to its own height. */
  lemma {:induction false} PathPrefix(tree: Tree, genesis: Hash, h: Hash, i: nat)
    requires TreeOk(tree, genesis) && h in tree && i <= tree[h].height
    ensures |Path(tree, genesis, h)| == tree[h].height + 1
    ensures var a := Path(tree, genesis, h)[i];
            a in tree && tree[a].height == i && Path(tree, genesis, a) == Path(tree, genesis, h)[..i + 1]
    decreases tree[h].height
  {
    PathFacts(tree, genesis, h);
    var p := Path(tree, genesis, h);
    if i == tree[h].height {
      assert p[..i + 1] == p;
    } else {
      assert Above(tree, h);
      PathPrefix(tree, genesis, tree[h].prev.value, i);
      assert p[..i + 1] == Path(tree, genesis, tree[h].prev.value)[..i + 1];
    }
  }

  /** An ancestor is the block its branch has at that height. */
  lemma AncestorAt(tree: Tree, genesis: Hash, a: Hash, h: Hash)
    requires TreeOk(tree, genesis) && h in tree
    ensures |Path(tree, genesis, h)| == tree[h].height + 1
    ensures IsAncestor(tree, genesis, a, h) <==>
            a in tree && tree[a].height <= tree[h].height && Path(tree, genesis, h)[tree[a].height] == a
  {
    PathFacts(tree, genesis, h);
  }

  lemma AncestorTrans(tree: Tree, genesis: Hash, a: Hash, b: Hash, c: Hash)
    requires TreeOk(tree, genesis) && b in tree && c in tree
    requires IsAncestor(tree, genesis, a, b) && IsAncestor(tree, genesis, b, c)
    ensures IsAncestor(tree, genesis, a, c)
  {
    AncestorAt(tree, genesis, b, c);
    PathPrefix(tree, genesis, c, tree[b].height);
  }

  /** Below a block, its ancestors are those of its parent. */
  lemma AncestorStep(tree: Tree, genesis: Hash, a: Hash, h: Hash)
    requires TreeOk(tree, genesis) && h in tree && h != genesis
    ensures Above(tree, h)
    ensures IsAncestor(tree, genesis, a, h) <==> a == h || IsAncestor(tree, genesis, a, tree[h].prev.value)
  {
    assert Above(tree, h);
  }

  /** The last block the two branches share. */
  ghost predicate IsFork(tree: Tree, genesis: Hash, f: Hash, a: Hash, b: Hash)
    requires TreeOk(tree, genesis) && a in tree && b in tree
  {
    && f in tree
    && IsAncestor(tree, genesis, f, a) && IsAncestor(tree, genesis, f, b)
    && forall c :: IsAncestor(tree, genesis, c, a) && IsAncestor(tree, genesis, c, b) ==> IsAncestor(tree, genesis, c, f)
  }

  /** Every common ancestor of the two tips is still an ancestor of both walkers. */
  ghost predicate KeepsCommon(tree: Tree, genesis: Hash, a: Hash, b: Hash, x: Hash, y: Hash)
    requires TreeOk(tree, genesis) && a in tree && b in tree && x in tree && y in tree
  {
    forall c :: IsAncestor(tree, genesis, c, a) && IsAncestor(tree, genesis, c, b) ==>
      IsAncestor(tree, genesis, c, x) && IsAncestor(tree, genesis, c, y)
  }

  lemma StepLonger(tree: Tree, genesis: Hash, a: Hash, b: Hash, x: Hash, y: Hash)
    requires TreeOk(tree, genesis) && a in tree && b in tree && x in tree && y in tree
    requires KeepsCommon(tree, genesis, a, b, x, y) && IsAncestor(tree, genesis, y, b)
    requires tree[y].height >= tree[x].height && x != y
    ensures y != genesis && Above(tree, y)
    ensures KeepsCommon(tree, genesis, a, b, x, tree[y].prev.value)
    ensures IsAncestor(tree, genesis, tree[y].prev.value, b)
  {
    if y == genesis {
      PathFacts(tree, genesis, x);
    }
    assert Above(tree, y);
    var y' := tree[y].prev.value;
    forall c | IsAncestor(tree, genesis, c, a) && IsAncestor(tree, genesis, c, b)
      ensures IsAncestor(tree, genesis, c, y')
    {
      AncestorStep(tree, genesis, c, y);
      AncestorAt(tree, genesis, c, x);
      PathFacts(tree, genesis, x);
    }
    PathFacts(tree, genesis, y');
    AncestorTrans(tree, genesis, y', y, b);
  }

  /** Reorganize's search: step the higher of the two back until they meet. */
  method FindFork(tree: Tree, ghost genesis: Hash, best: Hash, pnew: Hash) returns (r: Option<Hash>)
    requires TreeOk(tree, genesis) && best in tree && pnew in tree
    ensures r.Some? && IsFork(tree, genesis, r.value, best, pnew)
  {
    var fork, merge := best, pnew;
    PathFacts(tree, genesis, best);
    PathFacts(tree, genesis, pnew);
    while fork != merge
      invariant fork in tree && merge in tree
      invariant IsAncestor(tree, genesis, fork, best) && IsAncestor(tree, genesis, merge, pnew)
      invariant KeepsCommon(tree, genesis, best, pnew, fork, merge)
      decreases tree[fork].height, tree[merge].height
    {
      while tree[merge].height > tree[fork].height
        invariant merge in tree && IsAncestor(tree, genesis, merge, pnew)
        invariant KeepsCommon(tree, genesis, best, pnew, fork, merge)
        decreases tree[merge].height
      {
        StepLonger(tree, genesis, best, pnew, fork, merge);
        if tree[merge].prev.None? {
          return None;
        }
        merge := tree[merge].prev.value;
      }
      if fork == merge {
        break;
      }
      assert KeepsCommon(tree, genesis, pnew, best, merge, fork);
      StepLonger(tree, genesis, pnew, best, merge, fork);
      if tree[fork].prev.None? {
        return None;
      }
      fork := tree[fork].prev.value;
      assert KeepsCommon(tree, genesis, best, pnew, fork, merge);
    }
    r := Some(fork);
  }

  /** Following the parent pointers that many times; None once they lead off the chain. */
  ghost function Stepped(tree: Tree, genesis: Hash, h: Hash, steps: nat): Option<Hash>
    requires TreeOk(tree, genesis) && h in tree
    decreases steps
  {
    if steps == 0 then Some(h)
    else if h == genesis then None
    else assert Above(tree, h); Stepped(tree, genesis, tree[h].prev.value, steps - 1)
  }

  lemma {:induction false} SteppedAlongPath(tree: Tree, genesis: Hash, h: Hash, steps: nat)
    requires TreeOk(tree, genesis) && h in tree
    ensures |Path(tree, genesis, h)| == tree[h].height + 1
    ensures Stepped(tree, genesis, h, steps) ==
            if steps <= tree[h].height then Some(Path(tree, genesis, h)[tree[h].height - steps]) else None
    decreases steps
  {
    PathFacts(tree, genesis, h);
    if steps > 0 && h != genesis {
      assert Above(tree, h);
      SteppedAlongPath(tree, genesis, tree[h].prev.value, steps - 1);
    }
  }

  /** The checkpoint walk takes one step for each block above the checkpoint height; from height 5000 on it
      leaves the chain exactly when depth and threshold together exceed the height. */
  lemma WalkLeavesChain(tree: Tree, genesis: Hash, height: nat, request: Hash, threshold: nat)
    requires TreeOk(tree, genesis) && request in tree && height <= tree[request].height
    ensures var past := height - (TEMP_CHECKPOINT_DEPTH + threshold);
            Stepped(tree, genesis, request, tree[request].height - past).None? <==> TEMP_CHECKPOINT_DEPTH + threshold > height
  {
    SteppedAlongPath(tree, genesis, request, tree[request].height - (height - (TEMP_CHECKPOINT_DEPTH + threshold)));
  }

  /** Walks back from `request` to the checkpoint height below `height`. */
  method RollingCheckpoints(tree: Tree, ghost genesis: Hash, height: nat, request: Hash, threshold: nat)
    returns (r: Option<(Hash, nat)>)
    requires TreeOk(tree, genesis) && request in tree && height <= tree[request].height
    requires height >= 5000 ==> TEMP_CHECKPOINT_DEPTH + threshold <= height
    ensures |Path(tree, genesis, request)| == tree[request].height + 1
    ensures r == if height < 5000 then None
                 else var past := height - (TEMP_CHECKPOINT_DEPTH + threshold);
                      Some((Path(tree, genesis, request)[past], past))
  {
    PathFacts(tree, genesis, request);
    if height < 5000 {
      return None;
    }
    var current := request;
    var past := height - (TEMP_CHECKPOINT_DEPTH + threshold);
    ghost var start, p := past, Path(tree, genesis, request);
    while past < tree[request].height
      invariant start <= past <= tree[request].height
      invariant current == p[tree[request].height - (past - start)]
    {
      PathPrefix(tree, genesis, request, tree[current].height);
      PathFacts(tree, genesis, current);
      assert Above(tree, current);
      PathFacts(tree, genesis, tree[current].prev.value);
      assert Path(tree, genesis, current)[tree[current].height - 1] == tree[current].prev.value;
      current := tree[current].prev.value;
      past := past + 1;
    }
    r := Some((current, tree[current].height));
  }

  /** The maturity walk of ConnectInputs: whether a block at that place on disk is among the last `maturity`
      blocks of the branch of h. */
  method IsRecent(tree: Tree, ghost genesis: Hash, h: Hash, maturity: nat, file: nat, blockPos: nat) returns (recent: bool)
    requires TreeOk(tree, genesis) && h in tree
    ensures recent <==> exists a :: IsAncestor(tree, genesis, a, h) && a in tree && tree[h].height - tree[a].height < maturity &&
                                    tree[a].file == file && tree[a].blockPos == blockPos
  {
    PathFacts(tree, genesis, h);
    var index := Some(h);
    ghost var i, p := tree[h].height, Path(tree, genesis, h);
    while index.Some? && tree[h].height - tree[index.value].height < maturity
      invariant -1 <= i < |p| && index == if i >= 0 then Some(p[i]) else None
      invariant forall j :: i < j < |p| ==> tree[h].height - j < maturity && !(tree[p[j]].file == file && tree[p[j]].blockPos == blockPos)
      decreases i
    {
      if tree[index.value].blockPos == blockPos && tree[index.value].file == file {
        assert IsAncestor(tree, genesis, p[i], h);
        return true;
      }
      StepDown(tree, genesis, h, i);
      index := tree[index.value].prev;
      i := i - 1;
    }
    forall a | IsAncestor(tree, genesis, a, h) && a in tree && tree[h].height - tree[a].height < maturity
      ensures !(tree[a].file == file && tree[a].blockPos == blockPos)
    {
      AncestorAt(tree, genesis, a, h);
      assert p[tree[a].height] == a;
    }
    recent := false;
  }

  lemma StepDown(tree: Tree, genesis: Hash, h: Hash, i: nat)
    requires TreeOk(tree, genesis) && h in tree && |Path(tree, genesis, h)| == tree[h].height + 1 && i <= tree[h].height
    ensures var p := Path(tree, genesis, h);
            p[i] in tree && tree[p[i]].prev == if i > 0 then Some(p[i - 1]) else None
  {
    PathPrefix(tree, genesis, h, i);
    var a := Path(tree, genesis, h)[i];
    PathFacts(tree, genesis, a);
    if i > 0 {
      assert Above(tree, a);
      PathFacts(tree, genesis, tree[a].prev.value);
    } else {
      PathFacts(tree, genesis, h);
    }
  }

  /** Whether the branch of `pnew` goes through the rolling checkpoint. */
  method PassesCheckpoint(tree: Tree, ghost genesis: Hash, pnew: Hash, rolling: Hash, rollingHeight: nat) returns (ok: bool)
    requires TreeOk(tree, genesis) && pnew in tree && rolling in tree
    requires tree[rolling].height == rollingHeight <= tree[pnew].height
    ensures ok <==> IsAncestor(tree, genesis, rolling, pnew)
  {
    var index, height := pnew, tree[pnew].height;
    PathFacts(tree, genesis, pnew);
    while height > rollingHeight
      invariant index in tree && tree[index].height == height >= rollingHeight
      invariant IsAncestor(tree, genesis, rolling, pnew) <==> IsAncestor(tree, genesis, rolling, index)
    {
      if index == rolling {
        break;
      }
      AncestorStep(tree, genesis, rolling, index);
      index := tree[index].prev.value;
      height := height - 1;
    }
    AncestorAt(tree, genesis, rolling, index);
    PathFacts(tree, genesis, index);
    ok := index == rolling;
  }

  /** The blocks from `tip` down to, but without, its ancestor `fork`. */
  method ListDown(tree: Tree, ghost genesis: Hash, tip: Hash, fork: Hash) returns (list: seq<Hash>)
    requires TreeOk(tree, genesis) && tip in tree && fork in tree && IsAncestor(tree, genesis, fork, tip)
    ensures |Path(tree, genesis, tip)| == tree[tip].height + 1 && tree[fork].height <= tree[tip].height
    ensures |list| == tree[tip].height - tree[fork].height
    ensures forall i :: 0 <= i < |list| ==> list[i] == Path(tree, genesis, tip)[tree[tip].height - i]
  {
    PathFacts(tree, genesis, tip);
    ghost var p := Path(tree, genesis, tip);
    AncestorAt(tree, genesis, fork, tip);
    list := [];
    var index := tip;
    while index != fork
      invariant tree[fork].height + |list| <= tree[tip].height
      invariant index == p[tree[tip].height - |list|]
      invariant forall i :: 0 <= i < |list| ==> list[i] == p[tree[tip].height - i]
      decreases tree[index].height
    {
      PathPrefix(tree, genesis, tip, tree[index].height);
      PathFacts(tree, genesis, index);
      assert Above(tree, index);
      PathFacts(tree, genesis, tree[index].prev.value);
      assert Path(tree, genesis, index)[tree[index].height - 1] == tree[index].prev.value;
      list := list + [index];
      index := tree[index].prev.value;
    }
  }
}
