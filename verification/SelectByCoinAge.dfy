/** SelectCoinsMinConfByCoinAge as a whole: what it returns is exact, reaches the target and, when nothing
    is rounded, costs the least coin age. */
module SelectByCoinAge {
  import opened Primitives
  import opened Knapsack
  import opened CoinLists
  import opened Bundles
  import opened CoinAgeSelection

  /** The chosen coins are listed coins, worth exactly `sum`, and enough. */
  ghost predicate Pays(v: seq<Entry>, target: nat, sel: set<OutPoint>, sum: nat) {
    sel <= AllCoins(v) && sum == SumIn(v, sel) && sum >= target
  }

  /** No set of listed coins that reaches the target costs less. */
  ghost predicate Cheapest(v: seq<Entry>, target: nat, sel: set<OutPoint>) {
    forall other: set<OutPoint> :: SumIn(v, other) >= target ==> CostIn(v, sel) <= CostIn(v, other)
  }

  /** No coin without value costs anything. */
  predicate ZeroIsFree(v: seq<Entry>) {
    forall i :: 0 <= i < |v| ==> v[i].value > 0 || v[i].cost == 0
  }

  // ----- why the traceback is optimal when nothing is rounded

  ghost function DropOutside(v: seq<Entry>, sel: set<OutPoint>): (drop: seq<bool>)
    ensures |drop| == |v|
  {
    seq(|v|, i requires 0 <= i < |v| => v[i].coin !in sel)
  }

  lemma {:induction false} KeepsInside(v: seq<Entry>, sel: set<OutPoint>, k: nat)
    requires k <= |v|
    ensures Kept(v, 0, DropOutside(v, sel), k) == SumIn(v[..k], sel)
    ensures KeptCost(v, 0, DropOutside(v, sel), k) == CostIn(v[..k], sel)
  {
    if k > 0 {
      KeepsInside(v, sel, k - 1);
      assert v[..k] == v[..k - 1] + [v[k - 1]];
      SumConcat(v[..k - 1], [v[k - 1]], sel);
      assert [v[k - 1]][1..] == [];
    }
  }

  /** Kept and dropped together are everything. */
  lemma {:induction false} KeptAndDropped(v: seq<Entry>, g: nat, drop: seq<bool>, k: nat)
    requires g > 0 && k <= |v| == |drop| && forall i :: 0 <= i < |v| ==> v[i].value % g == 0
    ensures Kept(v, 0, drop, k) + g * WeightOf(KnapsackItems(v, g, 0, |v|), drop[..k]) == Total(v[..k])
    ensures KeptCost(v, 0, drop, k) + CostOf(KnapsackItems(v, g, 0, |v|), drop[..k]) == TotalCost(v[..k])
  {
    hide WeightOf, CostOf, Kept, KeptCost, Total, TotalCost;
    if k > 0 {
      KeptAndDropped(v, g, drop, k - 1);
      var its, last := KnapsackItems(v, g, 0, |v|), v[k - 1];
      DropNext(its, drop, k);
      KeptNext(v, 0, drop, k);
      TotalNext(v, k);
      DivMod(last.value, g);
      MulSplit(g, WeightOf(its, drop[..k - 1]), last.value / g);
    } else {
      NothingKept(v, g, 0, |v|, drop);
      NoTotal(v);
    }
  }

  lemma NoTotal(v: seq<Entry>)
    ensures Total(v[..0]) == TotalCost(v[..0]) == 0
  {
  }

  lemma DivLess(g: nat, a: nat, b: nat)
    requires g > 0 && g * a <= g * b
    ensures a <= b
  {
    if a > b {
      MulAtLeast(g, a - b);
    }
  }

  /** Dropping the greatest cost that fits keeps the least cost that still pays. */
  lemma TracebackIsCheapest(v: seq<Entry>, target: nat, g: nat, columns: nat, cost: nat, other: set<OutPoint>)
    requires g > 0 && target % g == 0 && ZeroIsFree(v) && forall i :: 0 <= i < |v| ==> v[i].value % g == 0
    requires target <= Total(v) && columns >= 1 && g * (columns - 1) == Total(v) - target
    requires var its := KnapsackItems(v, g, 0, |v|);
             cost == KeptCost(v, 0, Drops(its, |v|, columns - 1), |v|)
    requires SumIn(v, other) >= target
    ensures cost <= CostIn(v, other)
  {
    hide Kept, KeptCost, Drops, SumIn, CostIn, Total, TotalCost, WeightOf, ZeroIsFree;
    var its := KnapsackItems(v, g, 0, |v|);
    var best, drop := Drops(its, |v|, columns - 1), DropOutside(v, other);
    assert best[..|v|] == best && drop[..|v|] == drop && v[..|v|] == v;
    KeepsInside(v, other, |v|);
    KeptAndDropped(v, g, drop, |v|);
    KeptAndDropped(v, g, best, |v|);
    DivLess(g, WeightOf(its, drop), columns - 1);
    BestIsGreatest(its, drop, columns - 1);
    WeightlessIsFree(v, g);
    DropsAreBest(its, |v|, columns - 1);
  }

  lemma WeightlessIsFree(v: seq<Entry>, g: nat)
    requires g > 0 && ZeroIsFree(v) && forall i :: 0 <= i < |v| ==> v[i].value % g == 0
    ensures var its := KnapsackItems(v, g, 0, |v|);
            forall k :: 0 <= k < |its| ==> its[k].weight > 0 || its[k].cost == 0
  {
    var its := KnapsackItems(v, g, 0, |v|);
    forall k | 0 <= k < |its| ensures its[k].weight > 0 || its[k].cost == 0 {
      DivMod(v[k].value, g);
    }
  }

  lemma {:induction false} ExactWeight(v: seq<Entry>, g: nat, k: nat)
    requires g > 0 && k <= |v| && forall i :: 0 <= i < |v| ==> v[i].value % g == 0
    ensures g * WeightBetween(v, g, 0, k) == Total(v[..k])
  {
    hide Total, WeightBetween;
    if k > 0 {
      ExactWeight(v, g, k - 1);
      TotalNext(v, k);
      WeightLast(v, g, 0, k);
      DivMod(v[k - 1].value, g);
      MulSplit(g, WeightBetween(v, g, 0, k - 1), v[k - 1].value / g);
    } else {
      NoTotal(v);
      NoWeight(v, g);
    }
  }

  /** The scaled numbers are exact when the divisor divides everything. */
  lemma ExactColumns(v: seq<Entry>, target: nat, g: nat)
    requires g > 0 && target % g == 0 && forall i :: 0 <= i < |v| ==> v[i].value % g == 0
    requires target <= Total(v)
    ensures var weight := WeightBetween(v, g, 0, |v|);
            && Total(v) / g == weight
            && Columns(weight, target, g) >= 1
            && g * (Columns(weight, target, g) - 1) == Total(v) - target
  {
    hide Total, WeightBetween;
    var weight := WeightBetween(v, g, 0, |v|);
    ExactWeight(v, g, |v|);
    assert v[..|v|] == v;
    MultipleMod(g, weight);
    DivMod(target, g);
    DivLess(g, target / g, weight);
    assert g * (weight - target / g) == g * weight - g * (target / g);
  }

  /** Where nothing is rounded, the matrix is small: fewer than 50 cells beyond its first column. */
  lemma TableIsSmall(v: seq<Entry>, target: nat, g: nat)
    requires g > 0 && target % g == 0 && forall i :: 0 <= i < |v| ==> v[i].value % g == 0
    requires target <= Total(v) && Granularity(v, target) <= g
    ensures Columns(WeightBetween(v, g, 0, |v|), target, g) >= 1
    ensures |v| * (Columns(WeightBetween(v, g, 0, |v|), target, g) - 1) < 50
  {
    hide Total, WeightBetween, Columns;
    ExactColumns(v, target, g);
    var c, n := Columns(WeightBetween(v, g, 0, |v|), target, g) - 1, |v| * (Total(v) - target);
    DivMod(n, 25);
    assert n < 25 * g + 25 <= 50 * g;
    assert n == (|v| * c) * g;
    if |v| * c >= 50 {
      MulMono(50, |v| * c, g);
    }
  }

  /** A worthless coin that costs something is kept all the same, so leaving it out would be cheaper. */
  lemma CostlyZeroIsKept(v: seq<Entry>, target: nat, g: nat, column: nat, i: nat, sum: nat, cost: nat) returns (other: set<OutPoint>)
    requires g > 0 && DistinctCoins(v) && i < |v| && v[i].value == 0 && v[i].cost > 0
    requires var drop := Drops(KnapsackItems(v, g, 0, |v|), |v|, column);
             sum == Kept(v, 0, drop, |v|) && cost == KeptCost(v, 0, drop, |v|) && sum >= target
    ensures SumIn(v, other) >= target && CostIn(v, other) < cost
  {
    hide Kept, KeptCost, Drops, SumIn, CostIn;
    var its := KnapsackItems(v, g, 0, |v|);
    var drop := Drops(its, |v|, column);
    WeightlessIsKept(its, |v|, column, i);
    other := set p | 0 <= p < |v| && !drop[p] && p != i :: v[p].coin;
    forall p | 0 <= p < |v|
      ensures DropOutside(v, other)[p] == drop[i := true][p]
    {
    }
    assert DropOutside(v, other) == drop[i := true];
    KeepsInside(v, other, |v|);
    assert v[..|v|] == v;
    DropOneMore(v, drop, i, |v|);
  }

  lemma {:induction false} DropOneMore(v: seq<Entry>, drop: seq<bool>, i: nat, k: nat)
    requires i < |drop| == |v| && !drop[i] && k <= |drop|
    ensures Kept(v, 0, drop[i := true], k) == Kept(v, 0, drop, k) - if i < k then v[i].value else 0
    ensures KeptCost(v, 0, drop[i := true], k) == KeptCost(v, 0, drop, k) - if i < k then v[i].cost else 0
  {
    if k > 0 {
      DropOneMore(v, drop, i, k - 1);
    }
  }

  /** The branch without approximation: least cost, exactly when no worthless coin costs anything. */
  method SolveExact(v: seq<Entry>, target: nat, g: nat) returns (sel: set<OutPoint>, sum: nat)
    requires DistinctCoins(v) && v != [] && target < Total(v)
    requires g > 0 && target % g == 0 && forall i :: 0 <= i < |v| ==> v[i].value % g == 0
    ensures Pays(v, target, sel, sum)
    ensures Cheapest(v, target, sel) <==> ZeroIsFree(v)
  {
    hide Kept, KeptCost, SumIn, CostIn, WeightBetween, Drops, Bundled;
    Unbundled(v);
    ExactColumns(v, target, g);
    SumNone(v, {});
    var weight := WeightBetween(v, g, 0, |v|);
    sel, sum := Finish(v, v, |v|, [], |v|, g, target, 0, {}, 0, weight);
    if ZeroIsFree(v) {
      forall other: set<OutPoint> | SumIn(v, other) >= target
        ensures CostIn(v, sel) <= CostIn(v, other)
      {
        TracebackIsCheapest(v, target, g, Columns(weight, target, g), CostIn(v, sel), other);
      }
    } else {
      ghost var i :| 0 <= i < |v| && !(v[i].value > 0 || v[i].cost == 0);
      EnoughKept(v, g, 0, |v|, target, weight);
      ghost var drop := Drops(KnapsackItems(v, g, 0, |v|), |v|, Columns(weight, target, g) - 1);
      ghost var other := CostlyZeroIsKept(v, target, g, Columns(weight, target, g) - 1, i, Kept(v, 0, drop, |v|), CostIn(v, sel));
    }
  }

  // ----- the branch with approximation

  lemma WeightNext(v: seq<Entry>, denom: nat, i: nat)
    requires denom > 0 && i < |v|
    ensures WeightBetween(v, denom, 0, i + 1) == WeightBetween(v, denom, 0, i) + v[i].value / denom
    ensures v[i].value / denom >= 0
  {
  }

  method ScaledTotal(v: seq<Entry>, denom: nat, items: nat) returns (weight: nat)
    requires denom > 0 && items <= |v|
    ensures weight == WeightBetween(v, denom, 0, items)
  {
    weight := 0;
    for i := 0 to items
      invariant weight == WeightBetween(v, denom, 0, i)
    {
      WeightNext(v, denom, i);
      weight := weight + v[i].value / denom;
    }
  }

  lemma TotalSplit(v: seq<Entry>, k: nat)
    requires k <= |v|
    ensures Total(v) == Total(v[..k]) + Total(v[k..]) && SumIn(v, Coins(v, 0, k)) >= Total(v[..k])
  {
    TotalConcat(v[..k], v[k..]);
    assert v == v[..k] + v[k..];
    SumConcat(v[..k], v[k..], Coins(v, 0, k));
    forall i | 0 <= i < k ensures v[..k][i].coin in Coins(v, 0, k) { assert v[i].coin in Coins(v, 0, k); }
    SumWhole(v[..k], Coins(v, 0, k));
  }

  lemma BigFirst(v: seq<Entry>, denom: nat)
    ensures IsSplit(Partition(v, denom), |Filter(v, denom, true)|, denom)
  {
    FilterElems(v, denom, true);
    FilterElems(v, denom, false);
    var a, b := Filter(v, denom, true), Filter(v, denom, false);
    forall i | 0 <= i < |a| ensures a[i].value >= denom { assert a[i] in a; }
    forall i | 0 <= i < |b| ensures b[i].value < denom { assert b[i] in b; }
  }

  /** Exactly the first `big` coins reach the threshold. */
  ghost predicate IsSplit(coins: seq<Entry>, big: nat, denom: nat) {
    && big <= |coins| && (forall i :: 0 <= i < big ==> coins[i].value >= denom)
    && forall i :: big <= i < |coins| ==> coins[i].value < denom
  }

  /** The items and bundles the approximation works with, and how many of them it picks beforehand. */
  datatype Plan = Plan(coins: seq<Entry>, v: seq<Entry>, big: nat, starts: seq<nat>, items: nat, begin: nat)

  ghost predicate PlanOk(p: Plan) {
    DistinctCoins(p.coins) && Bundled(p.coins, p.v, p.big, p.starts, p.items) && p.begin <= p.items <= |p.v| && |p.v| == |p.coins| &&
    (p.begin <= p.big || p.begin - p.big < |p.starts|) && Bound(p.big, p.starts, p.begin) <= |p.coins|
  }

  /** The items of a plan: every coin that reaches the threshold by itself, then the smaller ones in bundles closed as soon
      as they are full, until the rest no longer fills one. */
  ghost predicate ItemsOk(p: Plan, denom: nat) {
    && PlanOk(p) && IsSplit(p.coins, p.big, denom) && p.starts != []
    && (forall k :: 0 <= k < |p.starts| - 1 ==> JustFull(p.coins, p.starts, k, denom))
    && (forall i :: 0 <= i < p.items ==> p.v[i].value >= denom)
    && (forall i :: p.items <= i < |p.v| ==> p.v[i] == p.coins[i])
    && (p.items <= p.big || p.items - p.big < |p.starts|) && Bound(p.big, p.starts, p.items) <= |p.coins|
    && Total(p.coins[Bound(p.big, p.starts, p.items)..]) < denom
  }

  /** The plan the code follows: pre-picking goes on exactly until the other items exceed what is left of the target. */
  ghost predicate Planned(p: Plan, denom: nat, target: nat) {
    && denom > 0 && ItemsOk(p, denom)
    && (forall b :: 0 <= b < p.begin ==> PicksOn(p.coins, p.v, p.big, p.starts, p.items, denom, target, b))
    && (p.begin == p.items || !PicksOn(p.coins, p.v, p.big, p.starts, p.items, denom, target, p.begin))
  }

  // ----- there is only one plan

  lemma TotalGrows(v: seq<Entry>, a: nat, b: nat, c: nat)
    requires a <= b <= c <= |v|
    ensures Total(v[a..b]) <= Total(v[a..c])
  {
    TotalConcat(v[a..b], v[b..c]);
    assert v[a..b] + v[b..c] == v[a..c];
  }

  lemma RestGrows(v: seq<Entry>, a: nat, b: nat)
    requires a <= b <= |v|
    ensures Total(v[a..b]) <= Total(v[a..])
  {
    TotalGrows(v, a, b, |v|);
    assert v[a..|v|] == v[a..];
  }

  lemma {:induction false} SameStarts(p: Plan, q: Plan, denom: nat, k: nat)
    requires ItemsOk(p, denom) && ItemsOk(q, denom) && p.coins == q.coins && p.big == q.big
    requires k < |p.starts| && k < |q.starts|
    ensures p.starts[k] == q.starts[k]
  {
    hide Total, PlanOk, IsSplit;
    if k > 0 {
      SameStarts(p, q, denom, k - 1);
      assert JustFull(p.coins, p.starts, k - 1, denom) && JustFull(q.coins, q.starts, k - 1, denom);
      var a, x, y := p.starts[k - 1], p.starts[k], q.starts[k];
      if x < y {
        TotalGrows(p.coins, a, x, y - 1);
      } else if y < x {
        TotalGrows(p.coins, a, y, x - 1);
      }
    } else {
      FirstStart(p);
      FirstStart(q);
    }
  }

  lemma FirstStart(p: Plan)
    requires PlanOk(p) && p.starts != []
    ensures p.starts[0] == p.big && p.items == p.big + |p.starts| - 1
    ensures p.starts[|p.starts| - 1] == Bound(p.big, p.starts, p.items) <= |p.coins|
  {
  }

  lemma NotLonger(p: Plan, q: Plan, denom: nat)
    requires ItemsOk(p, denom) && ItemsOk(q, denom) && p.coins == q.coins && p.big == q.big
    ensures |q.starts| <= |p.starts|
  {
    hide Total, PlanOk, IsSplit;
    if |q.starts| > |p.starts| {
      var k := |p.starts| - 1;
      SameStarts(p, q, denom, k);
      FirstStart(p);
      assert JustFull(q.coins, q.starts, k, denom);
      RestGrows(q.coins, q.starts[k], q.starts[k + 1]);
    }
  }

  lemma SameSplit(coins: seq<Entry>, a: nat, b: nat, denom: nat)
    requires IsSplit(coins, a, denom) && IsSplit(coins, b, denom) && a <= b
    ensures a == b
  {
    if a < |coins| {
      assert coins[a].value < denom;
    }
  }

  lemma SameItems(p: Plan, q: Plan, denom: nat)
    requires ItemsOk(p, denom) && ItemsOk(q, denom) && p.coins == q.coins
    ensures p.big == q.big && p.starts == q.starts && p.items == q.items && p.v == q.v
  {
    hide Total, TotalCost, JustFull;
    if p.big <= q.big {
      SameSplit(p.coins, p.big, q.big, denom);
    } else {
      SameSplit(p.coins, q.big, p.big, denom);
    }
    NotLonger(p, q, denom);
    NotLonger(q, p, denom);
    forall k | 0 <= k < |p.starts|
      ensures p.starts[k] == q.starts[k]
    {
      SameStarts(p, q, denom, k);
    }
    forall i | 0 <= i < p.items
      ensures p.v[i] == q.v[i]
    {
      assert ItemOk(p.coins, p.v, p.big, p.starts, i) && ItemOk(q.coins, q.v, q.big, q.starts, i);
    }
  }

  /** Coins, threshold and target determine the plan. */
  lemma OnlyPlan(p: Plan, q: Plan, denom: nat, target: nat)
    requires Planned(p, denom, target) && Planned(q, denom, target) && p.coins == q.coins
    ensures p == q
  {
    hide ItemsOk, PicksOn;
    SameItems(p, q, denom);
    BeginOk(p, denom);
    BeginOk(q, denom);
  }

  lemma BeginOk(p: Plan, denom: nat)
    requires ItemsOk(p, denom)
    ensures p.begin <= p.items
  {
  }

  // ----- what is chosen according to it

  ghost function Front(p: Plan): set<OutPoint>
    requires PlanOk(p)
  {
    Coins(p.coins, 0, Bound(p.big, p.starts, p.begin))
  }

  /** A choice among the items that are not picked beforehand, by what it drops, that reaches the rest after scaling. */
  ghost predicate IsChoice(p: Plan, denom: nat, target: nat, drop: seq<bool>) {
    && denom > 0 && PlanOk(p) && |drop| == p.items - p.begin && SumIn(p.coins, Front(p)) <= target
    && ScaledReaches(p.v, denom, p.begin, p.items, drop, target - SumIn(p.coins, Front(p)))
  }

  /** The coins of a choice: those picked beforehand and those of every item and bundle it keeps. */
  ghost function CoinsOf(p: Plan, drop: seq<bool>): set<OutPoint>
    requires PlanOk(p) && |drop| == p.items - p.begin
  {
    Front(p) + Taken(Job(p.coins, p.v, p.big, p.starts, p.items, p.begin, drop), 0)
  }

  /** These are the coins of some choice, and those of no choice cost less. */
  ghost predicate ScaledCheapest(p: Plan, denom: nat, target: nat, sel: set<OutPoint>) {
    && (exists drop :: IsChoice(p, denom, target, drop) && sel == CoinsOf(p, drop))
    && forall drop :: IsChoice(p, denom, target, drop) ==> CostIn(p.coins, sel) <= CostIn(p.coins, CoinsOf(p, drop))
  }

  /** All items together do not exceed the target after scaling, so that some are picked, and these reach it. */
  ghost predicate FrontSuffices(p: Plan, denom: nat, target: nat) {
    denom > 0 && PlanOk(p) && target / denom >= WeightBetween(p.v, denom, 0, p.items) && SumIn(p.coins, Front(p)) >= target
  }

  /** All items, and of the coins after them as many as are needed. */
  ghost predicate ToppedUp(p: Plan, target: nat, sel: set<OutPoint>) {
    PlanOk(p) && SumIn(p.coins, sel) >= target && exists end :: UpTo(p.coins, Bound(p.big, p.starts, p.items), target, sel, end)
  }

  /** How the approximation ends: the items picked beforehand reach the target and are taken alone; or, of all choices of
      the other items that reach the rest after scaling, one of least cost is added; or no item is left, and single coins
      are added until the target is reached. */
  ghost predicate Approximated(p: Plan, denom: nat, target: nat, sel: set<OutPoint>) {
    && Planned(p, denom, target)
    && if FrontSuffices(p, denom, target) then sel == Front(p)
       else if p.begin < p.items then ScaledCheapest(p, denom, target, sel)
       else ToppedUp(p, target, sel)
  }

  /** The branch with approximation: reaches the target, the way the plan says. */
  method SolveApprox(lower: seq<Entry>, target: nat, denom: nat) returns (sel: set<OutPoint>, sum: nat, ghost plan: Plan)
    requires DistinctCoins(lower) && target <= Total(lower) && denom > 0
    ensures Pays(lower, target, sel, sum)
    ensures plan.coins == Partition(lower, denom) && Approximated(plan, denom, target, sel)
  {
    hide Kept, KeptCost, SumIn, CostIn, WeightBetween, Drops, Coins, Total, Filter, Partition, Approximated, IsSplit;
    var coins := Partition(lower, denom);
    var big := |Filter(lower, denom, true)|;
    BigFirst(lower, denom);
    PartitionDistinct(lower, denom);
    sel, sum, plan := PayFrom(coins, big, denom, target, lower);
    PartitionSum(lower, denom, sel);
    PartitionCoins(lower, denom);
  }

  lemma PartitionCoins(v: seq<Entry>, denom: nat)
    requires DistinctCoins(v)
    ensures AllCoins(Partition(v, denom)) <= AllCoins(v)
  {
    PartitionDistinct(v, denom);
    var p := Partition(v, denom);
    forall c | c in AllCoins(p)
      ensures c in AllCoins(v)
    {
      var i :| 0 <= i < |p| && p[i].coin == c;
      assert p[i] in p;
      var j :| 0 <= j < |v| && v[j] == p[i];
    }
  }

  method PayFrom(coins: seq<Entry>, big: nat, denom: nat, target: nat, ghost lower: seq<Entry>)
    returns (sel: set<OutPoint>, sum: nat, ghost plan: Plan)
    requires DistinctCoins(coins) && denom > 0 && IsSplit(coins, big, denom)
    requires coins == Partition(lower, denom) && target <= Total(lower)
    ensures Pays(coins, target, sel, sum)
    ensures plan.coins == coins && Approximated(plan, denom, target, sel)
  {
    hide Kept, KeptCost, SumIn, CostIn, WeightBetween, Drops, Coins, Total, Filter, Partition, Bundled, ScaledCheapest,
         PicksOn, JustFull, UpTo;
    PartitionSum(lower, denom, {});
    var v, starts, items := Bundle(coins, big, denom);
    BundledSize(coins, v, big, starts, items);
    var picked, begin, front, already, weight := PickFront(coins, v, big, starts, items, denom, target);
    plan := Plan(coins, v, big, starts, items, begin);
    sel, sum := front, already;
    if !picked || sum < target {
      BoundsGrow(coins, v, big, starts, items, begin, items);
      NothingLeft(coins, v, big, starts, items, begin, denom, target, sum, weight);
      sel, sum := Finish(coins, v, big, starts, items, denom, target, begin, sel, sum, weight);
      if begin < items {
        FinishIsCheapest(plan, denom, target, sel);
      }
    }
  }

  /** The items picked beforehand: none, unless all items together do not exceed the target after scaling. */
  method PickFront(coins: seq<Entry>, v: seq<Entry>, big: nat, starts: seq<nat>, items: nat, denom: nat, target: nat)
    returns (picked: bool, begin: nat, sel: set<OutPoint>, sum: nat, weight: nat)
    requires denom > 0 && DistinctCoins(coins) && Bundled(coins, v, big, starts, items) && items <= |v| && |v| == |coins|
    requires items <= big || items - big < |starts|
    requires forall i :: 0 <= i < items ==> v[i].value >= denom
    ensures PlanOk(Plan(coins, v, big, starts, items, begin)) && sel <= AllCoins(coins)
    ensures sel == Front(Plan(coins, v, big, starts, items, begin)) && sum == SumIn(coins, sel)
    ensures weight == WeightBetween(v, denom, begin, items)
    ensures begin == items || Quot(target - sum, denom) < weight
    ensures forall b :: 0 <= b < begin ==> PicksOn(coins, v, big, starts, items, denom, target, b)
    ensures begin == items || !PicksOn(coins, v, big, starts, items, denom, target, begin)
    ensures picked <==> target / denom >= WeightBetween(v, denom, 0, items)
    ensures !picked ==> begin == 0 < items && sum == 0
  {
    hide SumIn, WeightBetween, Coins, Bundled, PicksOn, Quot, DistinctCoins;
    weight := ScaledTotal(v, denom, items);
    begin, sel, sum := 0, {}, 0;
    SumNone(coins, {});
    NoCoins(coins);
    NoWeight(v, denom);
    picked := target / denom >= weight;
    if picked {
      begin, sel, sum, weight := Prepick(coins, v, big, starts, items, denom, target, weight);
      CoinsPrefix(coins, Bound(big, starts, begin));
    } else {
      NonePicked(coins, v, big, starts, items, denom, target);
    }
  }

  lemma NonePicked(coins: seq<Entry>, v: seq<Entry>, big: nat, starts: seq<nat>, items: nat, denom: nat, target: nat)
    requires denom > 0 && items <= |v| && target / denom < WeightBetween(v, denom, 0, items)
    ensures Quot(target - 0, denom) < WeightBetween(v, denom, 0, items)
    ensures !PicksOn(coins, v, big, starts, items, denom, target, 0)
  {
    hide SumIn, WeightBetween, Coins;
    NoCoins(coins);
    SumNone(coins, {});
  }

  lemma FinishIsCheapest(p: Plan, denom: nat, target: nat, sel: set<OutPoint>)
    requires denom > 0 && PlanOk(p) && p.begin < p.items && SumIn(p.coins, Front(p)) <= target
    requires forall i :: 0 <= i < p.items ==> p.v[i].value >= denom
    requires Columns(WeightBetween(p.v, denom, p.begin, p.items), target - SumIn(p.coins, Front(p)), denom) >= 1
    requires sel == CoinsOf(p, BestDrop(p, denom, target))
    ensures ScaledCheapest(p, denom, target, sel)
  {
    hide SumIn, CostIn, KeptCost, Drops, WeightBetween, ScaledReaches, Bundled, DistinctCoins, Front, CoinsOf;
    var rest, best := target - SumIn(p.coins, Front(p)), BestDrop(p, denom, target);
    TracebackReaches(p.v, denom, p.begin, p.items, rest);
    assert IsChoice(p, denom, target, best);
    ChoiceCosts(p, best);
    forall drop | IsChoice(p, denom, target, drop)
      ensures CostIn(p.coins, sel) <= CostIn(p.coins, CoinsOf(p, drop))
    {
      TracebackCostsLeast(p.v, denom, p.begin, p.items, rest, drop);
      ChoiceCosts(p, drop);
    }
  }

  /** What the traceback drops. */
  ghost function BestDrop(p: Plan, denom: nat, target: nat): (drop: seq<bool>)
    requires denom > 0 && PlanOk(p) && SumIn(p.coins, Front(p)) <= target
    requires Columns(WeightBetween(p.v, denom, p.begin, p.items), target - SumIn(p.coins, Front(p)), denom) >= 1
  {
    Drops(KnapsackItems(p.v, denom, p.begin, p.items), p.items - p.begin,
          Columns(WeightBetween(p.v, denom, p.begin, p.items), target - SumIn(p.coins, Front(p)), denom) - 1)
  }

  lemma ChoiceCosts(p: Plan, drop: seq<bool>)
    requires PlanOk(p) && |drop| == p.items - p.begin
    ensures CostIn(p.coins, CoinsOf(p, drop)) == CostIn(p.coins, Front(p)) + KeptCost(p.v, p.begin, drop, |drop|)
  {
    hide Bundled, SumIn, CostIn, KeptCost, Traced, Taken, Coins;
    var job := Job(p.coins, p.v, p.big, p.starts, p.items, p.begin, drop);
    TakenTraced(job, 0, Front(p), SumIn(p.coins, Front(p)));
    TraceEnd(job, CoinsOf(p, drop), SumIn(p.coins, CoinsOf(p, drop)), Front(p), SumIn(p.coins, Front(p)));
  }

  lemma NoWeight(v: seq<Entry>, denom: nat)
    requires denom > 0
    ensures WeightBetween(v, denom, 0, 0) == 0
  {
  }

  /** After pre-picking, either the matrix has a column or only unbundled coins are left, and they suffice. */
  lemma NothingLeft(coins: seq<Entry>, v: seq<Entry>, big: nat, starts: seq<nat>, items: nat, begin: nat, denom: nat,
                    target: nat, sum: nat, weight: nat)
    requires denom > 0 && begin <= items && |v| == |coins| && items <= |v| && starts != []
    requires (begin <= big || begin - big < |starts|) && (items <= big || items - big < |starts|)
    requires Bound(big, starts, begin) <= Bound(big, starts, items) <= |coins|
    requires sum == SumIn(coins, Coins(coins, 0, Bound(big, starts, begin))) && sum <= target <= Total(coins) && (begin == items ==> sum < target)
    requires weight == WeightBetween(v, denom, begin, items)
    requires begin == items || Quot(target - sum, denom) < weight
    requires Total(coins[Bound(big, starts, items)..]) < denom
    ensures begin < items ==> Columns(weight, target - sum, denom) >= 1
    ensures begin == items ==> Columns(weight, target - sum, denom) == 0
    ensures begin == items ==> sum + Total(coins[Bound(big, starts, items)..]) >= target
  {
    if begin == items {
      TotalSplit(coins, Bound(big, starts, items));
      SmallDiv(target - sum, denom);
    }
  }

  lemma SmallDiv(n: nat, d: nat)
    requires 0 < n < d
    ensures n / d == 0 && n % d != 0
  {
    DivMod(n, d);
    if n / d >= 1 {
      MulAtLeast(d, n / d);
    }
  }

  // ----- the whole selection

  ghost predicate IsLarger(r: Rules, o: Output) {
    Eligible(r, o) && o.value >= r.target + CENT && o.cost < MAX_INT64
  }

  /** The first loop: the lower coins in order, and the larger coin of least cost. */
  method Classify(r: Rules, sorted: seq<Output>) returns (lower: seq<Entry>, larger: Option<Output>)
    ensures lower == Lower(r, sorted)
    ensures larger.None? ==> forall o :: o in sorted ==> !IsLarger(r, o)
    ensures larger.Some? ==> larger.value in sorted && IsLarger(r, larger.value)
    ensures larger.Some? ==> forall o :: o in sorted && IsLarger(r, o) ==> larger.value.cost <= o.cost
  {
    lower, larger := [], None;
    assert sorted[..0] == [];
    for i := 0 to |sorted|
      invariant lower == Lower(r, sorted[..i])
      invariant larger.None? ==> forall j :: 0 <= j < i ==> !IsLarger(r, sorted[j])
      invariant larger.Some? ==> larger.value in sorted && IsLarger(r, larger.value)
      invariant larger.Some? ==> forall j :: 0 <= j < i && IsLarger(r, sorted[j]) ==> larger.value.cost <= sorted[j].cost
    {
      var o := sorted[i];
      LowerSnoc(r, sorted[..i], o);
      assert sorted[..i + 1] == sorted[..i] + [o];
      if o.depth < (if o.fromMe then r.confMine else r.confTheirs) {
        continue;
      }
      if o.time > r.spendTime {
        continue;
      }
      if o.value < r.target + CENT {
        lower := lower + [AsEntry(o)];
      } else if o.cost < (if larger.Some? then larger.value.cost else MAX_INT64) {
        larger := Some(o);
      }
    }
    assert sorted[..|sorted|] == sorted;
  }

  /** Chooses among lower coins that can reach the target. */
  method SelectLower(lower: seq<Entry>, target: nat) returns (sel: set<OutPoint>, sum: nat)
    requires DistinctCoins(lower) && lower != [] && target <= Total(lower)
    ensures Pays(lower, target, sel, sum)
    ensures !Approximates(lower, target) ==> (Cheapest(lower, target, sel) <==> ZeroIsFree(lower))
    ensures Approximates(lower, target) ==> Rounded(lower, target, sel)
  {
    hide SumIn, CostIn, Total, Cheapest, ZeroIsFree, Pays, Approximated, DistinctCoins, Partition;
    var total, gcd := SumAndDivisor(lower, target);
    var approx := |lower| * (total - target) / PRECISION;
    if total == target {
      sel, sum := AllCoins(lower), total;
      EverythingPays(lower, target);
      return;
    }
    CommonDivides(lower, target);
    if approx > gcd {
      ghost var plan;
      sel, sum, plan := SolveApprox(lower, target, approx);
      assert RoundedBy(lower, target, sel, plan);
    } else {
      sel, sum := SolveExact(lower, target, gcd);
    }
  }

  /** The common divisor is too fine to be used as it is. */
  predicate Approximates(lower: seq<Entry>, target: nat)
    requires target <= Total(lower)
  {
    lower != [] && target != Total(lower) &&
    Granularity(lower, target) > CommonDivisor(lower, target)
  }

  /** The unit values are rounded to. */
  function Granularity(lower: seq<Entry>, target: nat): nat
    requires target <= Total(lower)
  {
    |lower| * (Total(lower) - target) / PRECISION
  }

  /** The choice is the one the approximation makes with its one plan (OnlyPlan). */
  ghost predicate Rounded(lower: seq<Entry>, target: nat, sel: set<OutPoint>) {
    exists plan :: RoundedBy(lower, target, sel, plan)
  }

  ghost predicate RoundedBy(lower: seq<Entry>, target: nat, sel: set<OutPoint>, plan: Plan) {
    && target <= Total(lower) && var denom := Granularity(lower, target);
    plan.coins == Partition(lower, denom) && Approximated(plan, denom, target, sel)
  }

  /** Coins and target determine what the approximation costs. */
  lemma RoundedCost(lower: seq<Entry>, target: nat, a: set<OutPoint>, b: set<OutPoint>)
    requires Rounded(lower, target, a) && Rounded(lower, target, b)
    ensures CostIn(lower, a) == CostIn(lower, b)
  {
    hide Approximated, Partition, CostIn, Total;
    var p :| RoundedBy(lower, target, a, p);
    var q :| RoundedBy(lower, target, b, q);
    var denom := Granularity(lower, target);
    SameCost(p, q, denom, target, a, b);
    PartitionSum(lower, denom, a);
    PartitionSum(lower, denom, b);
  }

  lemma SameCost(p: Plan, q: Plan, denom: nat, target: nat, a: set<OutPoint>, b: set<OutPoint>)
    requires Approximated(p, denom, target, a) && Approximated(q, denom, target, b) && p.coins == q.coins
    ensures CostIn(p.coins, a) == CostIn(p.coins, b)
  {
    hide Planned, PlanOk, IsChoice, CoinsOf, FrontSuffices, ToppedUp, SumIn, CostIn, Front;
    OnlyPlan(p, q, denom, target);
    if !FrontSuffices(p, denom, target) && p.begin >= p.items {
      SameTopUp(p, target, a, b);
    }
  }

  lemma SameTopUp(p: Plan, target: nat, a: set<OutPoint>, b: set<OutPoint>)
    requires ToppedUp(p, target, a) && ToppedUp(p, target, b)
    ensures a == b
  {
    hide UpTo, SumIn, Bundled;
    BundledSize(p.coins, p.v, p.big, p.starts, p.items);
    var from := Bound(p.big, p.starts, p.items);
    var x :| UpTo(p.coins, from, target, a, x);
    var y :| UpTo(p.coins, from, target, b, y);
    SameEnd(p.coins, from, target, a, x, b, y);
  }

  lemma SameEnd(coins: seq<Entry>, from: nat, target: nat, a: set<OutPoint>, x: nat, b: set<OutPoint>, y: nat)
    requires UpTo(coins, from, target, a, x) && UpTo(coins, from, target, b, y)
    requires SumIn(coins, a) >= target && SumIn(coins, b) >= target
    ensures a == b
  {
    hide SumIn, Coins;
  }

  /** If all coins together just reach the target, nothing less does, except leaving out worthless coins. */
  lemma EverythingPays(v: seq<Entry>, target: nat)
    requires target == Total(v)
    ensures Pays(v, target, AllCoins(v), target)
    ensures DistinctCoins(v) ==> (Cheapest(v, target, AllCoins(v)) <==> ZeroIsFree(v))
  {
    forall i | 0 <= i < |v| ensures v[i].coin in AllCoins(v) { }
    SumWhole(v, AllCoins(v));
    if ZeroIsFree(v) {
      forall other: set<OutPoint> | SumIn(v, other) >= target
        ensures CostIn(v, AllCoins(v)) <= CostIn(v, other)
      {
        ValuablePart(v, other);
      }
    } else if DistinctCoins(v) {
      var i :| 0 <= i < |v| && !(v[i].value > 0 || v[i].cost == 0);
      LeaveOne(v, i);
    }
  }

  lemma LeaveOne(v: seq<Entry>, i: nat)
    requires DistinctCoins(v) && i < |v|
    ensures SumIn(v, AllCoins(v) - {v[i].coin}) == SumIn(v, AllCoins(v)) - v[i].value
    ensures CostIn(v, AllCoins(v) - {v[i].coin}) == CostIn(v, AllCoins(v)) - v[i].cost
  {
    var rest := AllCoins(v) - {v[i].coin};
    assert Coins(v, i, i + 1) == {v[i].coin};
    assert rest + Coins(v, i, i + 1) == AllCoins(v);
    SumAddSpan(v, rest, i, i + 1);
    assert v[i..i + 1] == [v[i]] && [v[i]][1..] == [];
  }

  lemma {:induction false} ValuablePart(v: seq<Entry>, sel: set<OutPoint>)
    requires ZeroIsFree(v)
    ensures SumIn(v, sel) <= Total(v)
    ensures SumIn(v, sel) == Total(v) ==> CostIn(v, sel) == TotalCost(v)
  {
    if v != [] {
      ValuablePart(v[1..], sel);
    }
  }

  /** The answer in terms of the coins that were offered. */
  ghost predicate PaysWith(outputs: seq<Output>, r: Rules, sel: set<OutPoint>, sum: nat) {
    && (forall c :: c in sel ==> exists o :: o in outputs && o.coin == c && Eligible(r, o))
    && sum == SumIn(Entries(outputs), sel) && sum >= r.target
  }

  /** No set of lower coins that reaches the target costs less. */
  ghost predicate CheapestLower(outputs: seq<Output>, r: Rules, sel: set<OutPoint>) {
    forall other: set<OutPoint> ::
      ListsLower(r, outputs, other) && SumIn(Entries(outputs), other) >= r.target ==>
      CostIn(Entries(outputs), sel) <= CostIn(Entries(outputs), other)
  }

  lemma LowerToAll(r: Rules, outputs: seq<Output>, sel: set<OutPoint>, sum: nat)
    requires DistinctOutputs(outputs) && Pays(Lower(r, SortByCost(outputs)), r.target, sel, sum)
    ensures PaysWith(outputs, r, sel, sum)
    ensures CostIn(Lower(r, SortByCost(outputs)), sel) == CostIn(Entries(outputs), sel)
  {
    LowerSubset(r, outputs, sel);
    SameInAll(r, outputs, sel);
  }

  lemma CheapestToAll(r: Rules, outputs: seq<Output>, sel: set<OutPoint>)
    requires DistinctOutputs(outputs)
    requires CostIn(Lower(r, SortByCost(outputs)), sel) == CostIn(Entries(outputs), sel)
    ensures CheapestLower(outputs, r, sel) <==> Cheapest(Lower(r, SortByCost(outputs)), r.target, sel)
  {
    hide SumIn, CostIn, Lower, SortByCost;
    var lower := Lower(r, SortByCost(outputs));
    forall other: set<OutPoint>
      ensures SumIn(lower, other * AllCoins(lower)) == SumIn(lower, other) && CostIn(lower, other * AllCoins(lower)) == CostIn(lower, other)
      ensures ListsLower(r, outputs, other * AllCoins(lower))
      ensures ListsLower(r, outputs, other) ==>
                SumIn(lower, other) == SumIn(Entries(outputs), other) && CostIn(lower, other) == CostIn(Entries(outputs), other)
    {
      SumAgree(lower, other * AllCoins(lower), other);
      LowerSubset(r, outputs, other * AllCoins(lower));
      if ListsLower(r, outputs, other) {
        SameInAll(r, outputs, other);
      }
    }
    if CheapestLower(outputs, r, sel) {
      forall other: set<OutPoint> | SumIn(lower, other) >= r.target
        ensures CostIn(lower, sel) <= CostIn(lower, other)
      {
        assert ListsLower(r, outputs, other * AllCoins(lower));
      }
    }
  }

  /** Of the offered coins, the set holds lower ones only. */
  ghost predicate ListsLower(r: Rules, outputs: seq<Output>, sel: set<OutPoint>) {
    forall o :: o in outputs && o.coin in sel ==> IsLower(r, o)
  }

  lemma SameInAll(r: Rules, outputs: seq<Output>, sel: set<OutPoint>)
    requires DistinctOutputs(outputs) && ListsLower(r, outputs, sel)
    ensures var lower := Lower(r, SortByCost(outputs));
            SumIn(lower, sel) == SumIn(Entries(outputs), sel) && CostIn(lower, sel) == CostIn(Entries(outputs), sel)
  {
    SortKeeps(outputs);
    LowerSum(r, SortByCost(outputs), sel);
    SortSum(outputs, sel);
  }

  lemma LowerSubset(r: Rules, outputs: seq<Output>, sel: set<OutPoint>)
    requires DistinctOutputs(outputs) && sel <= AllCoins(Lower(r, SortByCost(outputs)))
    ensures ListsLower(r, outputs, sel)
    ensures forall c :: c in sel ==> exists o :: o in outputs && o.coin == c && IsLower(r, o)
  {
    var sorted := SortByCost(outputs);
    var lower := Lower(r, sorted);
    SortKeeps(outputs);
    LowerCoins(r, sorted);
    forall c | c in sel
      ensures exists o :: o in outputs && o.coin == c && IsLower(r, o)
    {
      var i :| 0 <= i < |lower| && lower[i].coin == c;
      assert lower[i] in lower;
      var o :| o in sorted && IsLower(r, o) && lower[i] == AsEntry(o);
    }
    forall o | o in outputs && o.coin in sel
      ensures IsLower(r, o)
    {
      var o' :| o' in outputs && o'.coin == o.coin && IsLower(r, o');
      var i :| 0 <= i < |outputs| && outputs[i] == o;
      var j :| 0 <= j < |outputs| && outputs[j] == o';
    }
  }

  lemma SumOfOne(e: Entry, sel: set<OutPoint>)
    ensures SumIn([e], sel) == if e.coin in sel then e.value else 0
  {
    assert [e][1..] == [];
  }

  lemma NoneOf(s: seq<Output>, c: OutPoint)
    requires forall i :: 0 <= i < |s| ==> s[i].coin != c
    ensures SumIn(Entries(s), {c}) == 0
  {
    SumNone(Entries(s), {c});
  }

  lemma {:induction false} OneCoin(outputs: seq<Output>, o: Output)
    requires DistinctOutputs(outputs) && o in outputs
    ensures SumIn(Entries(outputs), {o.coin}) == o.value
  {
    hide SumIn, Entries;
    var first, rest := outputs[0], outputs[1..];
    EntriesCons(first, rest);
    assert outputs == [first] + rest;
    SumConcat([AsEntry(first)], Entries(rest), {o.coin});
    SumOfOne(AsEntry(first), {o.coin});
    if first == o {
      forall i | 0 <= i < |rest| ensures rest[i].coin != o.coin { assert rest[i] == outputs[i + 1]; }
      NoneOf(rest, o.coin);
    } else {
      assert o in rest;
      OneCoin(rest, o);
    }
  }

  /** CoinWeightCost: value times age in days; getuint64 keeps the low 64 bits of the magnitude. */
  function CoinWeightCost(value: nat, now: int, time: nat): nat {
    value * (if now >= time then now - time else time - now) / 86400 % 0x1_0000_0000_0000_0000
  }

  /** The costs are the ones the wallet computes. */
  ghost predicate CostsAreCoinAge(now: int, outputs: seq<Output>) {
    forall o :: o in outputs ==> o.cost == CoinWeightCost(o.value, now, o.time)
  }

  /** Since the cost is a multiple of the value, worthless coins are free. */
  lemma CoinAgeIsFreeAtZero(now: int, r: Rules, outputs: seq<Output>)
    requires CostsAreCoinAge(now, outputs)
    ensures ZeroIsFree(Lower(r, SortByCost(outputs)))
  {
    hide CoinWeightCost, Lower, SortByCost;
    var sorted := SortByCost(outputs);
    var lower := Lower(r, sorted);
    SortKeeps(outputs);
    LowerCoins(r, sorted);
    forall i | 0 <= i < |lower|
      ensures lower[i].value > 0 || lower[i].cost == 0
    {
      assert lower[i] in lower;
      var o :| o in sorted && IsLower(r, o) && lower[i] == AsEntry(o);
      assert o in outputs;
      ZeroCostsNothing(now, o.time);
    }
  }

  lemma ZeroCostsNothing(now: int, time: nat)
    ensures CoinWeightCost(0, now, time) == 0
  {
  }

  lemma SomeLower(r: Rules, s: seq<Output>)
    requires exists o :: o in s && IsLower(r, o)
    ensures Lower(r, s) != []
  {
    var o :| o in s && IsLower(r, o);
    LowerHolds(r, s, o);
  }

  lemma {:induction false} LowerHolds(r: Rules, s: seq<Output>, o: Output)
    requires o in s && IsLower(r, o)
    ensures AsEntry(o) in Lower(r, s) && Total(Lower(r, s)) >= o.value
  {
    TotalConcat(if IsLower(r, s[0]) then [AsEntry(s[0])] else [], Lower(r, s[1..]));
    if s[0] != o {
      LowerHolds(r, s[1..], o);
    } else {
      assert [AsEntry(o)][1..] == [];
    }
  }

  lemma LowerNotEmpty(r: Rules, outputs: seq<Output>)
    requires r.target > 0 || exists o :: o in outputs && IsLower(r, o)
    requires Total(Lower(r, SortByCost(outputs))) >= r.target
    ensures Lower(r, SortByCost(outputs)) != []
  {
    SortKeeps(outputs);
    if r.target == 0 {
      var o :| o in outputs && IsLower(r, o);
      assert o in SortByCost(outputs);
      SomeLower(r, SortByCost(outputs));
    }
  }

  /** One larger coin, of least cost among them. */
  ghost predicate CheapestLarger(r: Rules, outputs: seq<Output>, sel: set<OutPoint>) {
    exists o :: o in outputs && IsLarger(r, o) && sel == {o.coin} && forall o' :: o' in outputs && IsLarger(r, o') ==> o.cost <= o'.cost
  }

  /** What is chosen: a larger coin if the lower ones fall short; else lower coins of least cost, exactly when no worthless one
      costs anything, or, if values are rounded, what the approximation chooses. */
  ghost predicate ChosenByAge(r: Rules, outputs: seq<Output>, sel: set<OutPoint>) {
    var lower := Lower(r, SortByCost(outputs));
    if Total(lower) < r.target then CheapestLarger(r, outputs, sel)
    else if Approximates(lower, r.target) then Rounded(lower, r.target, sel)
    else CheapestLower(outputs, r, sel) <==> ZeroIsFree(lower)
  }

  /** SelectCoinsMinConfByCoinAge. It fails exactly when the lower coins fall short and there is no larger
      one; otherwise the sum is that of the distinct returned coins, and reaches the target. If the lower coins
      can reach the target and nothing is rounded, no choice of lower coins is cheaper, exactly when no
      worthless coin costs anything; with the wallet's own costs that is always so. If values are rounded, the choice
      is that of the approximation. For target zero the code
      relies on there being a lower coin. */
  method SelectCoinsMinConfByCoinAge(r: Rules, outputs: seq<Output>) returns (res: Option<(set<OutPoint>, nat)>)
    requires DistinctOutputs(outputs) && (r.target > 0 || exists o :: o in outputs && IsLower(r, o))
    ensures res.None? <==> Total(Lower(r, outputs)) < r.target && forall o :: o in outputs ==> !IsLarger(r, o)
    ensures res.Some? ==> PaysWith(outputs, r, res.value.0, res.value.1)
    ensures res.Some? ==> ChosenByAge(r, outputs, res.value.0)
    ensures var lower := Lower(r, SortByCost(outputs));
            forall now :: Total(lower) >= r.target && !Approximates(lower, r.target) && CostsAreCoinAge(now, outputs) ==>
              res.Some? && CheapestLower(outputs, r, res.value.0)
  {
    hide SumIn, CostIn, Lower, SortByCost, Total, Cheapest, CheapestLower, IsLarger, PaysWith, Approximates, ZeroIsFree,
         CostsAreCoinAge, Rounded;
    var sorted := SortByCost(outputs);
    SortKeeps(outputs);
    LowerSort(r, outputs);
    var lower, larger := Classify(r, sorted);
    var total := TotalOf(lower);
    if total < r.target {
      if larger.None? {
        return None;
      }
      var o := larger.value;
      LargerPays(r, outputs, o);
      assert CheapestLarger(r, outputs, {o.coin});
      return Some(({o.coin}, o.value));
    }
    LowerNotEmpty(r, outputs);
    LowerCoins(r, sorted);
    var sel, sum := SelectLower(lower, r.target);
    LowerToAll(r, outputs, sel, sum);
    CheapestToAll(r, outputs, sel);
    forall now | CostsAreCoinAge(now, outputs)
      ensures ZeroIsFree(lower)
    {
      CoinAgeIsFreeAtZero(now, r, outputs);
    }
    res := Some((sel, sum));
  }

  method TotalOf(v: seq<Entry>) returns (total: nat)
    ensures total == Total(v)
  {
    total := 0;
    for i := 0 to |v|
      invariant total == Total(v[..i])
    {
      assert v[..i + 1] == v[..i] + [v[i]];
      TotalConcat(v[..i], [v[i]]);
      assert [v[i]][1..] == [];
      total := total + v[i].value;
    }
    assert v[..|v|] == v;
  }

  lemma LargerPays(r: Rules, outputs: seq<Output>, o: Output)
    requires DistinctOutputs(outputs) && o in outputs && IsLarger(r, o)
    ensures PaysWith(outputs, r, {o.coin}, o.value)
  {
    OneCoin(outputs, o);
  }
}
