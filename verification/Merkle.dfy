/** The Merkle tree of a block, kept level after level in one flat array. */
module Merkle {
  import opened Primitives

  /** The number of nodes one level up. */
  function Half(n: nat): nat {
    (n + 1) / 2
  }

  /** The next level: neighbours are hashed in pairs, a last odd node with itself. */
  function Up(h: (Hash, Hash) -> Hash, level: seq<Hash>): (up: seq<Hash>)
    ensures |up| == Half(|level|)
  {
    seq(Half(|level|), i requires 0 <= i < Half(|level|) => h(level[2 * i], level[Min(2 * i + 1, |level| - 1)]))
  }

  lemma UpAt(h: (Hash, Hash) -> Hash, level: seq<Hash>, i: nat)
    requires i < Half(|level|)
    ensures Up(h, level)[i] == h(level[2 * i], level[Min(2 * i + 1, |level| - 1)])
  {
  }

  function Root(h: (Hash, Hash) -> Hash, level: seq<Hash>): Hash
    requires level != []
    decreases |level|
  {
    if |level| == 1 then level[0] else Root(h, Up(h, level))
  }

  /** All levels one after the other. */
  function Flat(h: (Hash, Hash) -> Hash, level: seq<Hash>): seq<Hash>
    decreases |level|
  {
    level + if |level| <= 1 then [] else Flat(h, Up(h, level))
  }

  /** The index XOR 1. */
  function Sibling(i: nat): nat {
    if i % 2 == 0 then i + 1 else i - 1
  }

  function Branch(h: (Hash, Hash) -> Hash, level: seq<Hash>, i: nat): seq<Hash>
    requires i < |level|
    decreases |level|
  {
    if |level| <= 1 then [] else [level[Min(Sibling(i), |level| - 1)]] + Branch(h, Up(h, level), i / 2)
  }

  function Step(h: (Hash, Hash) -> Hash, hash: Hash, other: Hash, i: nat): Hash {
    if i % 2 == 1 then h(other, hash) else h(hash, other)
  }

  function Climb(h: (Hash, Hash) -> Hash, hash: Hash, branch: seq<Hash>, i: nat): Hash
    decreases |branch|
  {
    if branch == [] then hash else Climb(h, Step(h, hash, branch[0], i), branch[1..], i / 2)
  }

  // ----- the operations

  function Rest(h: (Hash, Hash) -> Hash, level: seq<Hash>): seq<Hash> {
    if |level| <= 1 then [] else Flat(h, Up(h, level))
  }

  lemma LevelUp(h: (Hash, Hash) -> Hash, level: seq<Hash>)
    requires |level| > 1
    ensures Rest(h, level) == Up(h, level) + Rest(h, Up(h, level))
    ensures Up(h, level) != [] && Root(h, Up(h, level)) == Root(h, level)
    ensures Flat(h, level)[|level|..] == Flat(h, Up(h, level))
  {
  }

  lemma TopLevel(h: (Hash, Hash) -> Hash, level: seq<Hash>)
    ensures level + Rest(h, level) == Flat(h, level)
    ensures |level| <= 1 ==> Rest(h, level) == []
    ensures |level| == 1 ==> Root(h, level) == level[0]
  {
  }

  /** The inner loop: appends the level above the one that starts at j. */
  method AppendLevel(h: (Hash, Hash) -> Hash, tree0: seq<Hash>, j: nat, size: nat, ghost level: seq<Hash>) returns (tree: seq<Hash>)
    requires size == |level| && |tree0| == j + size && tree0[j..] == level
    ensures tree == tree0 + Up(h, level)
  {
    hide Up;
    tree := tree0;
    var i := 0;
    ghost var k, up := 0, Up(h, level);
    while i < size
      invariant i == 2 * k && k <= Half(size) && tree == tree0 + up[..k]
      decreases size - i
    {
      var i2 := Min(i + 1, size - 1);
      assert tree[j + i] == tree0[j..][i] == level[i] && tree[j + i2] == tree0[j..][i2] == level[i2];
      UpAt(h, level, k);
      assert up[..k + 1] == up[..k] + [up[k]];
      tree := tree + [h(tree[j + i], tree[j + i2])];
      i := i + 2;
      k := k + 1;
    }
    assert up[..k] == up;
  }

  method BuildMerkleTree(h: (Hash, Hash) -> Hash, leaves: seq<Hash>) returns (tree: seq<Hash>, root: Hash)
    ensures tree == Flat(h, leaves)
    ensures root == if leaves == [] then 0 else Root(h, leaves)
  {
    hide Up, Flat, Root, Rest;
    tree := leaves;
    TopLevel(h, leaves);
    var j, size := 0, |leaves|;
    ghost var level := leaves;
    while size > 1
      invariant size == |level| && |tree| == j + size && tree[j..] == level
      invariant tree + Rest(h, level) == Flat(h, leaves)
      invariant leaves == [] <==> level == []
      invariant leaves != [] ==> Root(h, level) == Root(h, leaves)
      decreases size
    {
      LevelUp(h, level);
      ghost var before := tree;
      tree := AppendLevel(h, tree, j, size, level);
      j := j + size;
      size := Half(size);
      level := Up(h, level);
      assert tree[j..] == level;
      assert before + (level + Rest(h, level)) == tree + Rest(h, level);
    }
    TopLevel(h, level);
    assert tree + [] == tree;
    if tree != [] {
      assert tree[|tree| - 1] == tree[j..][0];
    }
    root := if tree == [] then 0 else tree[|tree| - 1];
  }

  /** The siblings on the way up, read from the cached tree, or from a new one if there is none. */
  method GetMerkleBranch(h: (Hash, Hash) -> Hash, leaves: seq<Hash>, cached: seq<Hash>, index: nat)
    returns (branch: seq<Hash>, tree: seq<Hash>)
    requires index < |leaves| && (cached == [] || cached == Flat(h, leaves))
    ensures branch == Branch(h, leaves, index) && tree == Flat(h, leaves)
  {
    hide Flat, Up, Branch, Half;
    tree := cached;
    if tree == [] {
      var built, _ := BuildMerkleTree(h, leaves);
      tree := built;
    }
    branch := [];
    var j, size, i: nat := 0, |leaves|, index;
    ghost var level := leaves;
    while size > 1
      invariant size == |level| && i < |level| && 0 <= j <= |tree| && tree[j..] == Flat(h, level)
      invariant branch + Branch(h, level, i) == Branch(h, leaves, index)
      decreases size
    {
      var s := Min(Sibling(i), size - 1);
      FlatFront(h, level, s);
      LevelUp(h, level);
      BranchStep(h, level, i);
      Halves(i, size);
      SuffixAt(tree, j, s);
      SuffixOf(tree, j, size);
      branch := branch + [tree[j + s]];
      i := i / 2;
      j := j + size;
      size := Half(size);
      level := Up(h, level);
    }
    BranchStep(h, level, i);
    assert branch + [] == branch;
  }

  lemma SuffixAt(tree: seq<Hash>, j: nat, s: nat)
    requires j + s < |tree|
    ensures tree[j + s] == tree[j..][s]
  {
  }

  lemma SuffixOf(tree: seq<Hash>, j: nat, size: nat)
    requires j + size <= |tree|
    ensures tree[j + size..] == tree[j..][size..]
  {
  }

  lemma Halves(i: nat, n: nat)
    requires i < n && n > 1
    ensures i / 2 < Half(n) < n
  {
  }

  lemma BranchStep(h: (Hash, Hash) -> Hash, level: seq<Hash>, i: nat)
    requires i < |level|
    ensures |level| <= 1 ==> Branch(h, level, i) == []
    ensures |level| > 1 ==> Branch(h, level, i) == [level[Min(Sibling(i), |level| - 1)]] + Branch(h, Up(h, level), i / 2)
  {
  }

  lemma FlatFront(h: (Hash, Hash) -> Hash, level: seq<Hash>, s: nat)
    requires s < |level|
    ensures |Flat(h, level)| >= |level| && Flat(h, level)[s] == level[s]
  {
  }

  method CheckMerkleBranch(h: (Hash, Hash) -> Hash, leaf: Hash, branch: seq<Hash>, index: int) returns (root: Hash)
    requires index >= -1
    ensures root == if index == -1 then 0 else Climb(h, leaf, branch, index)
  {
    if index == -1 {
      return 0;
    }
    root := leaf;
    var i := index;
    for k := 0 to |branch|
      invariant i >= 0 && Climb(h, root, branch[k..], i) == Climb(h, leaf, branch, index)
    {
      root := if i % 2 == 1 then h(branch[k], root) else h(root, branch[k]);
      i := i / 2;
    }
  }

  // ----- what they mean together

  lemma ParentOf(h: (Hash, Hash) -> Hash, level: seq<Hash>, i: nat)
    requires |level| > 1 && i < |level|
    ensures i / 2 < |Up(h, level)|
    ensures Step(h, level[i], level[Min(Sibling(i), |level| - 1)], i) == Up(h, level)[i / 2]
  {
    assert i == 2 * (i / 2) + i % 2;
    UpAt(h, level, i / 2);
  }

  /** The branch of a transaction leads from its hash to the root, whatever the shape of the levels. */
  lemma {:induction false} BranchLeadsToRoot(h: (Hash, Hash) -> Hash, level: seq<Hash>, i: nat)
    requires i < |level|
    ensures Climb(h, level[i], Branch(h, level, i), i) == Root(h, level)
    decreases |level|
  {
    if |level| > 1 {
      ParentOf(h, level, i);
      BranchLeadsToRoot(h, Up(h, level), i / 2);
      assert Branch(h, level, i)[1..] == Branch(h, Up(h, level), i / 2);
    }
  }

  ghost predicate CollisionFree(h: (Hash, Hash) -> Hash) {
    forall a, b, c, d :: h(a, b) == h(c, d) ==> a == c && b == d
  }

  /** With a collision-free hash nothing else leads there: any branch of that length that climbs from some
      hash at index i to the root is the real branch, from the real transaction. */
  lemma {:induction false} OnlyBranchLeadsToRoot(h: (Hash, Hash) -> Hash, level: seq<Hash>, i: nat, leaf: Hash, branch: seq<Hash>)
    requires CollisionFree(h) && i < |level| && |branch| == |Branch(h, level, i)|
    requires Climb(h, leaf, branch, i) == Root(h, level)
    ensures leaf == level[i] && branch == Branch(h, level, i)
    decreases |level|
  {
    if |level| > 1 {
      ParentOf(h, level, i);
      var up := Up(h, level);
      assert Branch(h, level, i)[1..] == Branch(h, up, i / 2);
      OnlyBranchLeadsToRoot(h, up, i / 2, Step(h, leaf, branch[0], i), branch[1..]);
      var other := level[Min(Sibling(i), |level| - 1)];
      assert Step(h, leaf, branch[0], i) == Step(h, level[i], other, i);
      assert leaf == level[i] && branch[0] == other;
      assert branch == [branch[0]] + branch[1..];
    }
  }
}
