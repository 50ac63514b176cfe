/** SelectCoinsMinConfByCoinAge: pay a target with the coins of least coin age. */
module CoinAgeSelection {
  import opened Primitives
  import opened Knapsack
  import opened CoinLists
  import opened Bundles

  const PRECISION := 25

  // ----- weights

  function WeightBetween(v: seq<Entry>, denom: nat, a: nat, b: nat): nat
    requires denom > 0 && a <= b <= |v|
  {
    if a == b then 0 else WeightBetween(v, denom, a, b - 1) + v[b - 1].value / denom
  }

  lemma {:induction false} WeightFront(v: seq<Entry>, denom: nat, a: nat, b: nat)
    requires denom > 0 && a < b <= |v|
    ensures WeightBetween(v, denom, a, b) == v[a].value / denom + WeightBetween(v, denom, a + 1, b)
  {
    if a + 1 < b {
      WeightFront(v, denom, a, b - 1);
    }
  }

  function KnapsackItems(v: seq<Entry>, denom: nat, a: nat, b: nat): (items: seq<Item>)
    requires denom > 0 && a <= b <= |v|
    ensures |items| == b - a
    ensures forall k :: 0 <= k < b - a ==> items[k] == Item(v[a + k].value / denom, v[a + k].cost)
  {
    seq(b - a, k requires 0 <= k < b - a => Item(v[a + k].value / denom, v[a + k].cost))
  }

  /** The value of the items from position a on that are kept, among the first k. */
  function Kept(v: seq<Entry>, a: nat, drop: seq<bool>, k: nat): nat
    requires k <= |drop| && a + |drop| <= |v|
  {
    if k == 0 then 0 else Kept(v, a, drop, k - 1) + if drop[k - 1] then 0 else v[a + k - 1].value
  }

  function KeptCost(v: seq<Entry>, a: nat, drop: seq<bool>, k: nat): nat
    requires k <= |drop| && a + |drop| <= |v|
  {
    if k == 0 then 0 else KeptCost(v, a, drop, k - 1) + if drop[k - 1] then 0 else v[a + k - 1].cost
  }

  lemma ScaledStep(d: nat, kept: nat, weight: nat, dropped: nat, w: nat, value: nat)
    requires kept + d * dropped >= d * weight && value >= d * w
    ensures kept + d * (dropped + w) >= d * (weight + w)
    ensures kept + value + d * dropped >= d * (weight + w)
  {
    assert d * (weight + w) == d * weight + d * w;
    assert d * (dropped + w) == d * dropped + d * w;
  }

  /** What is kept is worth at least the scaled weight that was not dropped. */
  lemma {:induction false} KeptEnough(v: seq<Entry>, denom: nat, a: nat, b: nat, drop: seq<bool>, k: nat)
    requires denom > 0 && a <= b <= |v| && |drop| == b - a && k <= |drop|
    ensures Kept(v, a, drop, k) + denom * WeightOf(KnapsackItems(v, denom, a, b), drop[..k])
            >= denom * WeightBetween(v, denom, a, a + k)
  {
    hide WeightOf, WeightBetween, Kept;
    if k > 0 {
      KeptEnough(v, denom, a, b, drop, k - 1);
      var items, w := KnapsackItems(v, denom, a, b), v[a + k - 1].value / denom;
      DropNext(items, drop, k);
      KeptNext(v, a, drop, k);
      WeightLast(v, denom, a, a + k);
      DivMod(v[a + k - 1].value, denom);
      ScaledStep(denom, Kept(v, a, drop, k - 1), WeightBetween(v, denom, a, a + k - 1),
                 WeightOf(items, drop[..k - 1]), w, v[a + k - 1].value);
    } else {
      NothingKept(v, denom, a, b, drop);
    }
  }

  lemma KeptNext(v: seq<Entry>, a: nat, drop: seq<bool>, k: nat)
    requires 0 < k <= |drop| && a + |drop| <= |v|
    ensures Kept(v, a, drop, k) == Kept(v, a, drop, k - 1) + if drop[k - 1] then 0 else v[a + k - 1].value
    ensures KeptCost(v, a, drop, k) == KeptCost(v, a, drop, k - 1) + if drop[k - 1] then 0 else v[a + k - 1].cost
  {
  }

  lemma WeightLast(v: seq<Entry>, denom: nat, a: nat, b: nat)
    requires denom > 0 && a < b <= |v|
    ensures WeightBetween(v, denom, a, b) == WeightBetween(v, denom, a, b - 1) + v[b - 1].value / denom
  {
  }

  lemma NothingKept(v: seq<Entry>, denom: nat, a: nat, b: nat, drop: seq<bool>)
    requires denom > 0 && a <= b <= |v| && |drop| == b - a
    ensures Kept(v, a, drop, 0) == KeptCost(v, a, drop, 0) == WeightBetween(v, denom, a, a) == 0
    ensures WeightOf(KnapsackItems(v, denom, a, b), drop[..0]) == CostOf(KnapsackItems(v, denom, a, b), drop[..0]) == 0
  {
  }

  // ----- taking items

  /** What is chosen so far: its exact value, within two stretches of coins. */
  ghost predicate Chosen(coins: seq<Entry>, sel: set<OutPoint>, sum: nat, lo: nat, hi: nat, end: nat) {
    lo <= hi <= end <= |coins| && sel <= Coins(coins, 0, lo) + Coins(coins, hi, end) && sum == SumIn(coins, sel)
  }

  /** Inserts the coins of one item: a single coin or a whole bundle. */
  method TakeItem(v: seq<Entry>, big: nat, starts: seq<nat>, i: nat, sel: set<OutPoint>, ghost coins: seq<Entry>)
    returns (sel': set<OutPoint>)
    requires ItemOk(coins, v, big, starts, i) && |v| == |coins| && forall p :: 0 <= p < |v| ==> v[p].coin == coins[p].coin
    ensures sel' == sel + Coins(coins, Bound(big, starts, i), Bound(big, starts, i + 1))
  {
    if i >= big {
      var from, to := starts[i - big], starts[i - big + 1];
      sel' := sel;
      for p := from to to
        invariant sel' == sel + Coins(coins, from, p)
      {
        sel' := sel' + {v[p].coin};
      }
    } else {
      sel' := sel + {v[i].coin};
    }
  }

  /** Taking an item none of whose coins was taken adds exactly its value and cost. */
  lemma TakeAdds(coins: seq<Entry>, v: seq<Entry>, big: nat, starts: seq<nat>, i: nat, sel: set<OutPoint>, sum: nat,
                 lo: nat, end: nat)
    requires DistinctCoins(coins) && ItemOk(coins, v, big, starts, i) && lo <= Bound(big, starts, i)
    requires Chosen(coins, sel, sum, lo, Bound(big, starts, i + 1), end)
    ensures var sel' := sel + Coins(coins, Bound(big, starts, i), Bound(big, starts, i + 1));
            && Chosen(coins, sel', sum + v[i].value, lo, Bound(big, starts, i), end)
            && CostIn(coins, sel') == CostIn(coins, sel) + v[i].cost
  {
    var a, b := Bound(big, starts, i), Bound(big, starts, i + 1);
    SpansApart(coins, a, b, 0, lo);
    SpansApart(coins, a, b, b, end);
    SumAddSpan(coins, sel, a, b);
  }

  /** C++ division, truncating toward zero. */
  function Quot(a: int, d: nat): int
    requires d > 0
  {
    if a >= 0 then a / d else -(-a / d)
  }

  /** With the first b items picked, the others still do not exceed what is left of the target after scaling. */
  ghost predicate PicksOn(coins: seq<Entry>, v: seq<Entry>, big: nat, starts: seq<nat>, items: nat, denom: nat, target: nat, b: nat) {
    && denom > 0 && b <= items <= |v| && (b <= big || b - big < |starts|) && Bound(big, starts, b) <= |coins|
    && Quot(target - SumIn(coins, Coins(coins, 0, Bound(big, starts, b))), denom) >= WeightBetween(v, denom, b, items)
  }

  /** Picks items from the front while the rest could not reach the target after scaling. */
  method Prepick(coins: seq<Entry>, v: seq<Entry>, big: nat, starts: seq<nat>, items: nat, denom: nat, target: nat, total: nat)
    returns (begin: nat, sel: set<OutPoint>, sum: nat, weight: nat)
    requires denom > 0 && DistinctCoins(coins) && Bundled(coins, v, big, starts, items)
    requires forall i :: 0 <= i < items ==> v[i].value >= denom
    requires total == WeightBetween(v, denom, 0, items)
    ensures begin <= items && weight == WeightBetween(v, denom, begin, items)
    ensures Bound(big, starts, begin) <= |coins|
    ensures sel == Coins(coins, 0, Bound(big, starts, begin)) && sum == SumIn(coins, sel)
    ensures begin == items || Quot(target - sum, denom) < weight
    ensures forall b :: 0 <= b < begin ==> PicksOn(coins, v, big, starts, items, denom, target, b)
    ensures begin == items || !PicksOn(coins, v, big, starts, items, denom, target, begin)
  {
    hide SumIn, Coins, WeightBetween, Total, TotalCost, DistinctCoins;
    begin, sel, sum, weight := 0, {}, 0, total;
    SumNone(coins, {});
    NoCoins(coins);
    while begin < items && Quot(target - sum, denom) >= weight
      invariant begin <= items && weight == WeightBetween(v, denom, begin, items)
      invariant Bound(big, starts, begin) <= |coins|
      invariant sel == Coins(coins, 0, Bound(big, starts, begin)) && sum == SumIn(coins, sel)
      invariant forall b :: 0 <= b < begin ==> PicksOn(coins, v, big, starts, items, denom, target, b)
    {
      assert ItemOk(coins, v, big, starts, begin);
      assert PicksOn(coins, v, big, starts, items, denom, target, begin);
      TakeFront(coins, v, big, starts, begin, sel, sum);
      sel := TakeItem(v, big, starts, begin, sel, coins);
      WeightFront(v, denom, begin, items);
      weight := weight - v[begin].value / denom;
      sum := sum + v[begin].value;
      begin := begin + 1;
    }
  }

  lemma NoCoins(coins: seq<Entry>)
    ensures Coins(coins, 0, 0) == {}
  {
  }

  lemma TakeFront(coins: seq<Entry>, v: seq<Entry>, big: nat, starts: seq<nat>, i: nat, sel: set<OutPoint>, sum: nat)
    requires DistinctCoins(coins) && ItemOk(coins, v, big, starts, i)
    requires sel == Coins(coins, 0, Bound(big, starts, i)) && sum == SumIn(coins, sel)
    ensures var sel' := sel + Coins(coins, Bound(big, starts, i), Bound(big, starts, i + 1));
            sel' == Coins(coins, 0, Bound(big, starts, i + 1)) && SumIn(coins, sel') == sum + v[i].value
  {
    var a, b := Bound(big, starts, i), Bound(big, starts, i + 1);
    SpansApart(coins, a, b, 0, a);
    SumAddSpan(coins, sel, a, b);
    forall c | c in Coins(coins, 0, b)
      ensures c in sel + Coins(coins, a, b)
    {
      var p :| 0 <= p < b && coins[p].coin == c;
    }
  }

  // ----- the knapsack

  /** Follows the columns back from the last row, taking every item whose column stays put. */
  method Traceback(coins: seq<Entry>, v: seq<Entry>, big: nat, starts: seq<nat>, items: nat, denom: nat, begin: nat,
                   table: array2<nat>, columns: nat, sel0: set<OutPoint>, sum0: nat)
    returns (sel: set<OutPoint>, sum: nat)
    requires denom > 0 && DistinctCoins(coins) && Bundled(coins, v, big, starts, items) && begin <= items
    requires Bound(big, starts, begin) <= Bound(big, starts, items)
    requires sel0 == Coins(coins, 0, Bound(big, starts, begin)) && sum0 == SumIn(coins, sel0)
    requires columns >= 1 && table.Length0 == items - begin + 1 && table.Length1 == columns
    requires forall i, j :: 0 < i <= items - begin && 0 <= j < columns ==>
      table[i, j] == Column(KnapsackItems(v, denom, begin, items), i, j)
    ensures var drop := Drops(KnapsackItems(v, denom, begin, items), items - begin, columns - 1);
            TracedBack(Job(coins, v, big, starts, items, begin, drop), sel, sum, sel0, sum0)
    ensures sel <= Coins(coins, 0, Bound(big, starts, items)) && sum == SumIn(coins, sel)
  {
    hide Bundled, Traced, TracedBack, Kept, KeptCost, Coins, SumIn, CostIn, Drops, Column, KnapsackItems;
    BundledSize(coins, v, big, starts, items);
    ghost var its := KnapsackItems(v, denom, begin, items);
    ghost var full := Drops(its, items - begin, columns - 1);
    ghost var job := Job(coins, v, big, starts, items, begin, full);
    sel, sum := sel0, sum0;
    var column := columns - 1;
    TraceStart(job, sel, sum);
    assert full[..items - begin] == full;
    for i := items - begin downto 0
      invariant 0 <= column < columns && full[..i] == Drops(its, i, column)
      invariant Traced(job, i, sel, sum, sel0, sum0)
    {
      var next := table[i + 1, column];
      TraceColumn(its, full, i, column);
      if column == next {
        sel, sum := TakeKept(v, big, starts, begin + i, sel, sum, job, i, sel0, sum0);
      } else {
        TraceStep(job, i, sel, sum, sel0, sum0);
      }
      column := next;
    }
    TraceEnd(job, sel, sum, sel0, sum0);
  }

  /** A row whose column stays put: its item is taken. */
  method TakeKept(v: seq<Entry>, big: nat, starts: seq<nat>, k: nat, sel: set<OutPoint>, sum: nat,
                  ghost job: Job, ghost i: nat, ghost sel0: set<OutPoint>, ghost sum0: nat)
    returns (sel': set<OutPoint>, sum': nat)
    requires job.v == v && job.big == big && job.starts == starts && k == job.begin + i
    requires i < |job.drop| && !job.drop[i] && Traced(job, i + 1, sel, sum, sel0, sum0)
    ensures Traced(job, i, sel', sum', sel0, sum0)
  {
    hide Bundled, Traced, Coins;
    TraceStep(job, i, sel, sum, sel0, sum0);
    sel' := TakeItem(v, big, starts, k, sel, job.coins);
    sum' := sum + v[k].value;
  }

  /** What stays fixed during a traceback; `drop` is its final answer. */
  datatype Job = Job(coins: seq<Entry>, v: seq<Entry>, big: nat, starts: seq<nat>, items: nat, begin: nat, drop: seq<bool>) {
    ghost predicate Ok() {
      DistinctCoins(coins) && Bundled(coins, v, big, starts, items) && begin <= items && |drop| == items - begin
    }
  }

  /** The coins of the items from row i on that are kept. */
  ghost function Taken(job: Job, i: nat): set<OutPoint>
    requires job.Ok() && i <= |job.drop|
    decreases |job.drop| - i
  {
    if i == |job.drop| then {}
    else
      var k := job.begin + i;
      assert ItemOk(job.coins, job.v, job.big, job.starts, k);
      Taken(job, i + 1) + if job.drop[i] then {} else Coins(job.coins, Bound(job.big, job.starts, k), Bound(job.big, job.starts, k + 1))
  }

  /** The state of the traceback when the first i rows are still to come. */
  ghost predicate Traced(job: Job, i: nat, sel: set<OutPoint>, sum: nat, sel0: set<OutPoint>, sum0: nat) {
    && job.Ok() && i <= |job.drop|
    && Bound(job.big, job.starts, job.begin) <= Bound(job.big, job.starts, job.begin + i)
    && Chosen(job.coins, sel, sum, Bound(job.big, job.starts, job.begin), Bound(job.big, job.starts, job.begin + i),
              Bound(job.big, job.starts, job.items))
    && sel == sel0 + Taken(job, i)
    && sum == sum0 + Kept(job.v, job.begin, job.drop, |job.drop|) - Kept(job.v, job.begin, job.drop, i)
    && CostIn(job.coins, sel) == CostIn(job.coins, sel0)
       + KeptCost(job.v, job.begin, job.drop, |job.drop|) - KeptCost(job.v, job.begin, job.drop, i)
  }

  /** The end of the traceback: the kept items are added, with their value and their cost. */
  ghost predicate TracedBack(job: Job, sel: set<OutPoint>, sum: nat, sel0: set<OutPoint>, sum0: nat) {
    && job.Ok() && |job.v| == |job.coins| && sel == sel0 + Taken(job, 0)
    && sum == sum0 + Kept(job.v, job.begin, job.drop, |job.drop|)
    && CostIn(job.coins, sel) == CostIn(job.coins, sel0) + KeptCost(job.v, job.begin, job.drop, |job.drop|)
  }

  lemma TraceStart(job: Job, sel: set<OutPoint>, sum: nat)
    requires job.Ok() && Bound(job.big, job.starts, job.begin) <= |job.coins|
    requires sel == Coins(job.coins, 0, Bound(job.big, job.starts, job.begin)) && sum == SumIn(job.coins, sel)
    ensures Traced(job, |job.drop|, sel, sum, sel, sum)
  {
    BoundsGrow(job.coins, job.v, job.big, job.starts, job.items, job.begin, job.items);
  }

  lemma TraceColumn(its: seq<Item>, full: seq<bool>, i: nat, column: nat)
    requires i < |its| && i < |full| && full[..i + 1] == Drops(its, i + 1, column)
    ensures full[..i] == Drops(its, i, Column(its, i + 1, column))
    ensures full[i] == (Column(its, i + 1, column) != column) && Column(its, i + 1, column) <= column
  {
    assert full[..i] == full[..i + 1][..i] && full[i] == full[..i + 1][i];
  }

  /** One row: a kept item is taken whole, a dropped one leaves everything as it was. */
  lemma TraceStep(job: Job, i: nat, sel: set<OutPoint>, sum: nat, sel0: set<OutPoint>, sum0: nat)
    requires i < |job.drop| && Traced(job, i + 1, sel, sum, sel0, sum0)
    ensures var k := job.begin + i;
            && ItemOk(job.coins, job.v, job.big, job.starts, k) && |job.v| == |job.coins|
            && (forall p :: 0 <= p < |job.v| ==> job.v[p].coin == job.coins[p].coin)
            && (if job.drop[i] then Traced(job, i, sel, sum, sel0, sum0)
                else Traced(job, i, sel + Coins(job.coins, Bound(job.big, job.starts, k), Bound(job.big, job.starts, k + 1)),
                            sum + job.v[k].value, sel0, sum0))
  {
    hide Taken, Kept, KeptCost, SumIn, CostIn, Coins, Total, TotalCost, DistinctCoins, Chosen;
    var k, lo, end := job.begin + i, Bound(job.big, job.starts, job.begin), Bound(job.big, job.starts, job.items);
    assert ItemOk(job.coins, job.v, job.big, job.starts, k);
    BoundsGrow(job.coins, job.v, job.big, job.starts, job.items, job.begin, k);
    TakenNext(job, i, sel0);
    KeptNext(job.v, job.begin, job.drop, i + 1);
    if job.drop[i] {
      ChosenWider(job.coins, sel, sum, lo, Bound(job.big, job.starts, k), Bound(job.big, job.starts, k + 1), end);
    } else {
      TakeAdds(job.coins, job.v, job.big, job.starts, k, sel, sum, lo, end);
    }
  }

  lemma TraceEnd(job: Job, sel: set<OutPoint>, sum: nat, sel0: set<OutPoint>, sum0: nat)
    requires Traced(job, 0, sel, sum, sel0, sum0)
    ensures Bound(job.big, job.starts, job.items) <= |job.coins|
    ensures TracedBack(job, sel, sum, sel0, sum0) && sum == SumIn(job.coins, sel)
    ensures sel <= Coins(job.coins, 0, Bound(job.big, job.starts, job.items))
  {
    hide Taken, SumIn, CostIn;
    CoinsSplit(job.coins, Bound(job.big, job.starts, job.begin), Bound(job.big, job.starts, job.items));
  }

  lemma BundledSize(coins: seq<Entry>, v: seq<Entry>, big: nat, starts: seq<nat>, items: nat)
    requires Bundled(coins, v, big, starts, items)
    ensures (items <= big || items - big < |starts|) && items <= |v| == |coins| && Bound(big, starts, items) <= |coins|
  {
  }

  lemma ChosenWider(coins: seq<Entry>, sel: set<OutPoint>, sum: nat, lo: nat, hi: nat, hi': nat, end: nat)
    requires Chosen(coins, sel, sum, lo, hi', end) && lo <= hi <= hi'
    ensures Chosen(coins, sel, sum, lo, hi, end)
  {
  }

  lemma CoinsSplit(coins: seq<Entry>, lo: nat, end: nat)
    requires lo <= end <= |coins|
    ensures Coins(coins, 0, lo) + Coins(coins, lo, end) <= Coins(coins, 0, end)
  {
  }

  lemma {:induction false} BoundsGrow(coins: seq<Entry>, v: seq<Entry>, big: nat, starts: seq<nat>, items: nat, i: nat, j: nat)
    requires Bundled(coins, v, big, starts, items) && i <= j <= items
    ensures Bound(big, starts, i) <= Bound(big, starts, j) <= |coins|
    decreases j - i
  {
    if i < j {
      assert ItemOk(coins, v, big, starts, i);
      BoundsGrow(coins, v, big, starts, items, i + 1, j);
    } else if j < items {
      assert ItemOk(coins, v, big, starts, j);
    }
  }

  /** The number of columns: how much scaled value may be dropped, plus one if nothing is lost by rounding. */
  function Columns(weight: nat, remaining: nat, denom: nat): int
    requires denom > 0
  {
    weight - remaining / denom + if remaining % denom != 0 then 0 else 1
  }

  lemma ReachesArith(d: nat, kept: nat, weight: nat, dropped: nat, remaining: nat)
    requires d > 0 && kept + d * dropped >= d * weight && dropped <= Columns(weight, remaining, d) - 1
    ensures kept >= remaining
  {
    var q := remaining / d;
    var need := if remaining % d != 0 then q + 1 else q;
    DivMod(remaining, d);
    assert weight - dropped >= need;
    assert d * weight - d * dropped == d * (weight - dropped) >= d * need by {
      MulMono(need, weight - dropped, d);
    }
    assert d * (q + 1) == d * q + d;
  }

  /** The coins up to the first position from `from` on at which they reach the target. */
  ghost predicate UpTo(coins: seq<Entry>, from: nat, target: nat, sel: set<OutPoint>, end: nat) {
    && from <= end <= |coins| && sel == Coins(coins, 0, end)
    && forall q :: from <= q < end ==> SumIn(coins, Coins(coins, 0, q)) < target
  }

  /** Adds the leftover coins until the target is met. */
  method TopUp(coins: seq<Entry>, v: seq<Entry>, from: nat, sel0: set<OutPoint>, sum0: nat, target: nat)
    returns (sel: set<OutPoint>, sum: nat)
    requires DistinctCoins(coins) && from <= |coins| == |v| && forall i :: from <= i < |v| ==> v[i] == coins[i]
    requires sel0 <= Coins(coins, 0, from) && sum0 == SumIn(coins, sel0)
    ensures sel0 <= sel <= AllCoins(coins) && sum == SumIn(coins, sel)
    ensures sum >= target || sum == sum0 + Total(coins[from..])
    ensures sel0 == Coins(coins, 0, from) ==> exists end :: UpTo(coins, from, target, sel, end)
  {
    hide SumIn, Total, TotalCost, DistinctCoins;
    sel, sum := sel0, sum0;
    var p := from;
    TotalEmpty(coins, from);
    while p < |v| && sum < target
      invariant from <= p <= |v| && sel0 <= sel <= Coins(coins, 0, p)
      invariant sum == SumIn(coins, sel) && sum == sum0 + Total(coins[from..p])
      invariant sel0 == Coins(coins, 0, from) ==> UpTo(coins, from, target, sel, p)
    {
      OneMore(coins, p, sel);
      TotalStep(coins, from, p);
      sel := sel + {v[p].coin};
      sum := sum + v[p].value;
      p := p + 1;
    }
    assert p == |v| ==> coins[from..p] == coins[from..];
  }

  lemma OneMore(coins: seq<Entry>, p: nat, sel: set<OutPoint>)
    requires DistinctCoins(coins) && p < |coins| && sel <= Coins(coins, 0, p)
    ensures sel + {coins[p].coin} <= Coins(coins, 0, p + 1)
    ensures sel == Coins(coins, 0, p) ==> sel + {coins[p].coin} == Coins(coins, 0, p + 1)
    ensures SumIn(coins, sel + {coins[p].coin}) == SumIn(coins, sel) + coins[p].value
  {
    SpansApart(coins, 0, p, p, p + 1);
    assert Coins(coins, p, p + 1) == {coins[p].coin};
    SumAddSpan(coins, sel, p, p + 1);
    assert coins[p..p + 1] == [coins[p]];
    TotalConcat([coins[p]], []);
  }

  /** The dynamic program, its traceback and the top-up, from wherever pre-picking stopped. */
  method Finish(coins: seq<Entry>, v: seq<Entry>, big: nat, starts: seq<nat>, items: nat, denom: nat, target: nat,
                begin: nat, sel0: set<OutPoint>, sum0: nat, weight: nat)
    returns (sel: set<OutPoint>, sum: nat)
    requires denom > 0 && DistinctCoins(coins) && Bundled(coins, v, big, starts, items) && begin <= items <= |v|
    requires Bound(big, starts, begin) <= Bound(big, starts, items) <= |coins|
    requires sel0 == Coins(coins, 0, Bound(big, starts, begin)) && sum0 == SumIn(coins, sel0) && sum0 <= target
    requires weight == WeightBetween(v, denom, begin, items)
    requires begin < items ==> Columns(weight, target - sum0, denom) >= 1
    requires begin == items ==> starts != [] && Columns(weight, target - sum0, denom) == 0 &&
                                sum0 + Total(coins[Bound(big, starts, items)..]) >= target
    ensures sel <= AllCoins(coins) && sum == SumIn(coins, sel) && sum >= target
    ensures begin == items ==> exists end :: UpTo(coins, Bound(big, starts, items), target, sel, end)
    ensures begin < items ==>
      var drop := Drops(KnapsackItems(v, denom, begin, items), items - begin, Columns(weight, target - sum0, denom) - 1);
      && sel == sel0 + Taken(Job(coins, v, big, starts, items, begin, drop), 0)
      && CostIn(coins, sel) == CostIn(coins, sel0) + KeptCost(v, begin, drop, items - begin)
  {
    hide Kept, KeptCost, SumIn, Coins, WeightBetween, Drops, Taken;
    var columns := Columns(weight, target - sum0, denom);
    var its := KnapsackItems(v, denom, begin, items);
    sel, sum := sel0, sum0;
    var _, table := Fill(its, columns);
    if begin < items {
      sel, sum := Traceback(coins, v, big, starts, items, denom, begin, table, columns, sel0, sum0);
      EnoughKept(v, denom, begin, items, target - sum0, weight);
    }
    CoinsPrefix(coins, Bound(big, starts, items));
    if sum < target && starts != [] {
      LastBound(coins, v, big, starts, items);
      sel, sum := TopUp(coins, v, starts[|starts| - 1], sel, sum, target);
    }
  }

  lemma EnoughKept(v: seq<Entry>, denom: nat, a: nat, b: nat, remaining: nat, weight: nat)
    requires denom > 0 && a <= b <= |v| && weight == WeightBetween(v, denom, a, b) && Columns(weight, remaining, denom) >= 1
    ensures var drop := Drops(KnapsackItems(v, denom, a, b), b - a, Columns(weight, remaining, denom) - 1);
            Kept(v, a, drop, b - a) >= remaining
  {
    hide Kept, Drops, WeightBetween;
    var its := KnapsackItems(v, denom, a, b);
    var drop := Drops(its, b - a, Columns(weight, remaining, denom) - 1);
    assert drop[..b - a] == drop;
    DropsFit(its, b - a, Columns(weight, remaining, denom) - 1);
    KeptEnough(v, denom, a, b, drop, b - a);
    ReachesArith(denom, Kept(v, a, drop, b - a), weight, WeightOf(its, drop), remaining);
  }

  // ----- least cost among the scaled items

  /** Kept and dropped cost of a choice add up to the same for every choice. */
  lemma {:induction false} SameTotalCost(v: seq<Entry>, denom: nat, a: nat, b: nat, x: seq<bool>, y: seq<bool>, k: nat)
    requires denom > 0 && a <= b <= |v| && |x| == |y| == b - a && k <= b - a
    ensures var its := KnapsackItems(v, denom, a, b);
            KeptCost(v, a, x, k) + CostOf(its, x[..k]) == KeptCost(v, a, y, k) + CostOf(its, y[..k])
  {
    hide KeptCost, CostOf, KnapsackItems;
    if k > 0 {
      SameTotalCost(v, denom, a, b, x, y, k - 1);
      DropNext(KnapsackItems(v, denom, a, b), x, k);
      DropNext(KnapsackItems(v, denom, a, b), y, k);
      KeptNext(v, a, x, k);
      KeptNext(v, a, y, k);
    } else {
      NothingKept(v, denom, a, b, x);
      NothingKept(v, denom, a, b, y);
    }
  }

  /** The kept items of a choice reach what is left of the target, even after scaling. */
  ghost predicate ScaledReaches(v: seq<Entry>, denom: nat, a: nat, b: nat, drop: seq<bool>, rest: nat)
    requires denom > 0 && a <= b <= |v| && |drop| == b - a
  {
    denom * (WeightBetween(v, denom, a, b) - WeightOf(KnapsackItems(v, denom, a, b), drop)) >= rest
  }

  lemma CeilingFits(d: nat, kept: int, rest: nat)
    requires d > 0 && d * kept >= rest
    ensures kept >= rest / d + if rest % d != 0 then 1 else 0
  {
    DivMod(rest, d);
    var q := rest / d;
    if kept <= q {
      MulMono(kept, q, d);
    }
    if kept < q {
      MulSplit(d, kept, 1);
      MulMono(kept + 1, q, d);
    }
  }

  /** No choice whose kept items still reach the rest after scaling costs less than the traceback's. */
  lemma TracebackCostsLeast(v: seq<Entry>, denom: nat, a: nat, b: nat, rest: nat, drop: seq<bool>)
    requires denom > 0 && a <= b <= |v| && |drop| == b - a && forall i :: a <= i < b ==> v[i].value >= denom
    requires Columns(WeightBetween(v, denom, a, b), rest, denom) >= 1 && ScaledReaches(v, denom, a, b, drop, rest)
    ensures var best := Drops(KnapsackItems(v, denom, a, b), b - a, Columns(WeightBetween(v, denom, a, b), rest, denom) - 1);
            KeptCost(v, a, best, b - a) <= KeptCost(v, a, drop, b - a)
  {
    hide KeptCost, Drops, WeightBetween, WeightOf, CostOf;
    var its := KnapsackItems(v, denom, a, b);
    var column := Columns(WeightBetween(v, denom, a, b), rest, denom) - 1;
    var best := Drops(its, b - a, column);
    CeilingFits(denom, WeightBetween(v, denom, a, b) - WeightOf(its, drop), rest);
    BestIsGreatest(its, drop, column);
    forall k | 0 <= k < |its|
      ensures its[k].weight > 0
    {
      AtLeastOne(v[a + k].value, denom);
    }
    DropsAreBest(its, b - a, column);
    SameTotalCost(v, denom, a, b, best, drop, b - a);
    assert best[..b - a] == best && drop[..b - a] == drop;
  }

  /** The traceback's own choice reaches the rest after scaling. */
  lemma TracebackReaches(v: seq<Entry>, denom: nat, a: nat, b: nat, rest: nat)
    requires denom > 0 && a <= b <= |v| && Columns(WeightBetween(v, denom, a, b), rest, denom) >= 1
    ensures var best := Drops(KnapsackItems(v, denom, a, b), b - a, Columns(WeightBetween(v, denom, a, b), rest, denom) - 1);
            ScaledReaches(v, denom, a, b, best, rest)
  {
    hide Drops, WeightBetween, WeightOf;
    var its, weight := KnapsackItems(v, denom, a, b), WeightBetween(v, denom, a, b);
    var column := Columns(weight, rest, denom) - 1;
    var dropped := WeightOf(its, Drops(its, b - a, column));
    DropsFit(its, b - a, column);
    assert weight - dropped >= 0;
    MulSplit(denom, weight - dropped, dropped);
    ReachesArith(denom, denom * (weight - dropped), weight, dropped, rest);
  }

  /** Taking the kept items of any choice after the front costs exactly what they cost. */
  lemma {:induction false} TakenTraced(job: Job, i: nat, sel0: set<OutPoint>, sum0: nat)
    requires job.Ok() && i <= |job.drop| && Bound(job.big, job.starts, job.begin) <= |job.coins|
    requires sel0 == Coins(job.coins, 0, Bound(job.big, job.starts, job.begin)) && sum0 == SumIn(job.coins, sel0)
    ensures Traced(job, i, sel0 + Taken(job, i), SumIn(job.coins, sel0 + Taken(job, i)), sel0, sum0)
    decreases |job.drop| - i
  {
    hide Traced, Bundled, SumIn, Coins;
    if i == |job.drop| {
      assert sel0 + {} == sel0;
      TraceStart(job, sel0, sum0);
    } else {
      TakenTraced(job, i + 1, sel0, sum0);
      var sel := sel0 + Taken(job, i + 1);
      TraceStep(job, i, sel, SumIn(job.coins, sel), sel0, sum0);
      TakenNext(job, i, sel0);
      TracedSum(job, i, sel0 + Taken(job, i), if job.drop[i] then SumIn(job.coins, sel) else SumIn(job.coins, sel) + job.v[job.begin + i].value, sel0, sum0);
    }
  }

  lemma TakenNext(job: Job, i: nat, sel0: set<OutPoint>)
    requires job.Ok() && i < |job.drop| && ItemOk(job.coins, job.v, job.big, job.starts, job.begin + i)
    ensures var k := job.begin + i;
            sel0 + Taken(job, i) == if job.drop[i] then sel0 + Taken(job, i + 1)
                                    else sel0 + Taken(job, i + 1) + Coins(job.coins, Bound(job.big, job.starts, k), Bound(job.big, job.starts, k + 1))
  {
    hide Coins, Bundled;
  }

  lemma TracedSum(job: Job, i: nat, sel: set<OutPoint>, sum: nat, sel0: set<OutPoint>, sum0: nat)
    requires Traced(job, i, sel, sum, sel0, sum0)
    ensures sum == SumIn(job.coins, sel)
  {
  }

  lemma AtLeastOne(n: nat, d: nat)
    requires 0 < d <= n
    ensures n / d >= 1
  {
    QuotientFalls(n, d, n);
  }

  lemma CoinsPrefix(coins: seq<Entry>, k: nat)
    requires k <= |coins|
    ensures Coins(coins, 0, k) <= AllCoins(coins)
  {
  }

  lemma LastBound(coins: seq<Entry>, v: seq<Entry>, big: nat, starts: seq<nat>, items: nat)
    requires Bundled(coins, v, big, starts, items) && starts != []
    ensures starts[|starts| - 1] == Bound(big, starts, items) <= |coins| == |v|
    ensures forall i :: starts[|starts| - 1] <= i < |v| ==> v[i] == coins[i]
  {
  }
}
