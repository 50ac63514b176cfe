/** Scaling and bundling: how coin selection turns coins into knapsack items. */
module Bundles {
  import opened CoinLists

  // ----- the greatest common divisor

  function Gcd(n: nat, m: nat): nat
    decreases m
  {
    if m == 0 then n else Gcd(m, n % m)
  }

  lemma DivMod(n: nat, d: nat)
    requires d > 0
    ensures n == d * (n / d) + n % d && 0 <= n % d < d
  {
  }

  lemma MulAtLeast(d: nat, x: int)
    requires x >= 1
    ensures d * x >= d
  {
  }

  lemma SameQuotient(d: nat, q: nat, r: nat, k: nat)
    requires r < d && d * q + r == d * k
    ensures q == k && r == 0
  {
    assert d * (k - q) == d * k - d * q == r;
    if q < k {
      MulAtLeast(d, k - q);
    } else if q > k {
      MulAtLeast(d, q - k);
    }
  }

  lemma MultipleMod(d: nat, k: nat)
    requires d > 0
    ensures (d * k) % d == 0 && d * k / d == k
  {
    DivMod(d * k, d);
    SameQuotient(d, d * k / d, d * k % d, k);
  }

  lemma CombineMod(a: nat, b: nat, q: nat, d: nat)
    requires d > 0 && a % d == 0 && b % d == 0
    ensures (a * q + b) % d == 0
  {
    DivMod(a, d);
    DivMod(b, d);
    assert a * q + b == d * ((a / d) * q + b / d);
    MultipleMod(d, (a / d) * q + b / d);
  }

  lemma {:induction false} GcdDivides(n: nat, m: nat)
    requires n > 0 || m > 0
    ensures Gcd(n, m) > 0 && n % Gcd(n, m) == 0 && m % Gcd(n, m) == 0
    decreases m
  {
    if m == 0 {
      MultipleMod(n, 1);
      MultipleMod(n, 0);
    } else {
      GcdDivides(m, n % m);
      DivMod(n, m);
      CombineMod(m, n % m, n / m, Gcd(n, m));
    }
  }

  lemma DividesTrans(n: nat, d: nat, e: nat)
    requires d > 0 && e > 0 && n % d == 0 && d % e == 0
    ensures n % e == 0
  {
    DivMod(n, d);
    CombineMod(d, 0, n / d, e);
  }

  function GcdOf(v: seq<Entry>, k: nat): nat
    requires 0 < k <= |v|
  {
    if k == 1 then v[0].value else Gcd(v[k - 1].value, GcdOf(v, k - 1))
  }

  function CommonDivisor(v: seq<Entry>, target: nat): nat
    requires v != []
  {
    Gcd(target, GcdOf(v, |v|))
  }

  lemma {:induction false} GcdOfDivides(v: seq<Entry>, k: nat, d: nat, i: nat)
    requires i < k <= |v| && d > 0 && GcdOf(v, k) % d == 0
    ensures v[i].value % d == 0
  {
    if k > 1 {
      var a, b := v[k - 1].value, GcdOf(v, k - 1);
      if a == 0 && b == 0 {
        MultipleMod(d, 0);
      } else {
        GcdDivides(a, b);
        DividesTrans(a, GcdOf(v, k), d);
        DividesTrans(b, GcdOf(v, k), d);
      }
      if i < k - 1 {
        GcdOfDivides(v, k - 1, d, i);
      }
    }
  }

  lemma {:induction false} GcdOfPositive(v: seq<Entry>, k: nat)
    requires 0 < k <= |v| && Total(v[..k]) > 0
    ensures GcdOf(v, k) > 0
  {
    assert v[..k] == v[..k - 1] + [v[k - 1]];
    TotalConcat(v[..k - 1], [v[k - 1]]);
    assert [v[k - 1]][1..] == [];
    if k > 1 {
      if Total(v[..k - 1]) > 0 {
        GcdOfPositive(v, k - 1);
      }
      GcdDivides(v[k - 1].value, GcdOf(v, k - 1));
    } else {
      assert v[..0] == [];
    }
  }

  /** The common divisor of the target and the coins divides all of them, unless all are zero. */
  lemma CommonDivides(v: seq<Entry>, target: nat)
    requires v != [] && (target > 0 || Total(v) > 0)
    ensures CommonDivisor(v, target) > 0 && target % CommonDivisor(v, target) == 0
    ensures forall i :: 0 <= i < |v| ==> v[i].value % CommonDivisor(v, target) == 0
  {
    assert v[..|v|] == v;
    if target == 0 {
      GcdOfPositive(v, |v|);
    }
    GcdDivides(target, GcdOf(v, |v|));
    forall i | 0 <= i < |v|
      ensures v[i].value % CommonDivisor(v, target) == 0
    {
      GcdOfDivides(v, |v|, CommonDivisor(v, target), i);
    }
  }

  method SumAndDivisor(v: seq<Entry>, target: nat) returns (total: nat, gcd: nat)
    requires v != []
    ensures total == Total(v) && gcd == CommonDivisor(v, target)
  {
    total, gcd := v[0].value, v[0].value;
    TotalConcat([v[0]], []);
    assert v[..1] == [v[0]];
    for i := 1 to |v|
      invariant total == Total(v[..i]) && gcd == GcdOf(v, i)
    {
      gcd := Gcd(v[i].value, gcd);
      total := total + v[i].value;
      assert v[..i + 1] == v[..i] + [v[i]];
      TotalConcat(v[..i], [v[i]]);
    }
    assert v[..|v|] == v;
    gcd := Gcd(target, gcd);
  }

  // ----- bundles

  /** Where the coins of item i start: big coins are items by themselves, then come the bundles. */
  function Bound(big: nat, starts: seq<nat>, i: nat): nat
    requires i <= big || i - big < |starts|
  {
    if i <= big then i else starts[i - big]
  }

  /** The working list `v` against the coins `coins` it was made from: item i carries the value and the
      cost of its stretch of coins, every position still names its own coin, and the coins after the
      last item are untouched. */
  ghost predicate Bundled(coins: seq<Entry>, v: seq<Entry>, big: nat, starts: seq<nat>, items: nat) {
    && |v| == |coins| && big <= items <= |v|
    && (items == big + if starts == [] then 0 else |starts| - 1)
    && (starts != [] ==> starts[0] == big)
    && Bound(big, starts, items) <= |coins|
    && (forall i :: 0 <= i < |v| ==> v[i].coin == coins[i].coin)
    && (forall i :: Bound(big, starts, items) <= i < |v| ==> v[i] == coins[i])
    && (forall i :: 0 <= i < items ==> ItemOk(coins, v, big, starts, i))
  }

  ghost predicate ItemOk(coins: seq<Entry>, v: seq<Entry>, big: nat, starts: seq<nat>, i: nat)
  {
    && i < |v| && (i < big || i - big + 1 < |starts|)
    && (starts != [] ==> starts[0] == big)
    && Bound(big, starts, i) < Bound(big, starts, i + 1) <= |coins|
    && v[i].value == Total(coins[Bound(big, starts, i)..Bound(big, starts, i + 1)])
    && v[i].cost == TotalCost(coins[Bound(big, starts, i)..Bound(big, starts, i + 1)])
  }

  lemma Unbundled(v: seq<Entry>)
    ensures Bundled(v, v, |v|, [], |v|)
  {
    forall i | 0 <= i < |v|
      ensures ItemOk(v, v, |v|, [], i)
    {
      assert v[i..i + 1] == [v[i]];
      TotalConcat([v[i]], []);
    }
  }

  lemma BigItem(coins: seq<Entry>, v: seq<Entry>, big: nat, starts: seq<nat>, i: nat)
    requires i < big <= |coins| == |v| && v[i] == coins[i] && (starts != [] ==> starts[0] == big)
    ensures ItemOk(coins, v, big, starts, i)
  {
    assert coins[i..i + 1] == [coins[i]];
    TotalConcat([coins[i]], []);
  }

  /** Later starts and later writes do not disturb earlier items. */
  lemma ItemKept(coins: seq<Entry>, v: seq<Entry>, v': seq<Entry>, big: nat, starts: seq<nat>, more: seq<nat>, i: nat)
    requires ItemOk(coins, v, big, starts, i) && i < |v'| && v'[i] == v[i] && starts != []
    ensures ItemOk(coins, v', big, starts + more, i)
  {
  }

  /** Bundle k was closed as soon as it was full: without its last coin it would not be. */
  ghost predicate JustFull(coins: seq<Entry>, starts: seq<nat>, k: nat, denom: nat) {
    && k + 1 < |starts| && starts[k] < starts[k + 1] <= |coins|
    && Total(coins[starts[k]..starts[k + 1]]) >= denom && Total(coins[starts[k]..starts[k + 1] - 1]) < denom
  }

  /** Gathers the coins below `denom` into bundles worth at least `denom`, writing each bundle over the
      front of the list while the rest of it is still being read. */
  method Bundle(coins: seq<Entry>, big: nat, denom: nat) returns (v: seq<Entry>, starts: seq<nat>, items: nat)
    requires big <= |coins| && denom > 0
    requires forall i :: 0 <= i < big ==> coins[i].value >= denom
    ensures starts != [] && Bundled(coins, v, big, starts, items)
    ensures forall i :: 0 <= i < items ==> v[i].value >= denom
    ensures forall i :: items <= i < |v| ==> v[i] == coins[i]
    ensures forall k :: 0 <= k < |starts| - 1 ==> JustFull(coins, starts, k, denom)
    ensures Total(coins[Bound(big, starts, items)..]) < denom
  {
    hide Total, TotalCost, ItemOk, JustFull;
    v, starts, items := coins, [big], big;
    var value, cost, p := 0, 0, big;
    TotalEmpty(coins, p);
    forall i | 0 <= i < big ensures ItemOk(coins, v, big, starts, i) { BigItem(coins, v, big, starts, i); }
    while p < |v|
      invariant |v| == |coins| && starts != [] && starts[0] == big && items == big + |starts| - 1
      invariant items <= starts[|starts| - 1] <= p <= |coins|
      invariant forall i :: 0 <= i < |v| ==> v[i].coin == coins[i].coin
      invariant forall i :: items <= i < |v| ==> v[i] == coins[i]
      invariant forall i :: 0 <= i < items ==> ItemOk(coins, v, big, starts, i) && v[i].value >= denom
      invariant value == Total(coins[starts[|starts| - 1]..p]) && cost == TotalCost(coins[starts[|starts| - 1]..p])
      invariant forall k :: 0 <= k < |starts| - 1 ==> JustFull(coins, starts, k, denom)
      invariant value < denom
    {
      var from := starts[|starts| - 1];
      TotalStep(coins, from, p);
      value := value + v[p].value;
      cost := cost + v[p].cost;
      p := p + 1;
      if value >= denom {
        v, starts := CloseBundle(coins, v, big, starts, items, p, value, cost, denom);
        items := items + 1;
        value, cost := 0, 0;
        TotalEmpty(coins, p);
      }
    }
    assert coins[starts[|starts| - 1]..p] == coins[starts[|starts| - 1]..];
  }

  lemma TotalEmpty(v: seq<Entry>, p: nat)
    requires p <= |v|
    ensures Total(v[p..p]) == 0 && TotalCost(v[p..p]) == 0
  {
  }

  lemma TotalStep(v: seq<Entry>, from: nat, p: nat)
    requires from <= p < |v|
    ensures Total(v[from..p + 1]) == Total(v[from..p]) + v[p].value
    ensures TotalCost(v[from..p + 1]) == TotalCost(v[from..p]) + v[p].cost
  {
    assert v[from..p + 1] == v[from..p] + [v[p]];
    TotalConcat(v[from..p], [v[p]]);
  }

  method CloseBundle(coins: seq<Entry>, v: seq<Entry>, big: nat, starts: seq<nat>, items: nat, p: nat,
                     value: nat, cost: nat, denom: nat)
    returns (v': seq<Entry>, starts': seq<nat>)
    requires |v| == |coins| && starts != [] && starts[0] == big && items == big + |starts| - 1
    requires items <= starts[|starts| - 1] < p <= |coins|
    requires forall i :: 0 <= i < items ==> ItemOk(coins, v, big, starts, i) && v[i].value >= denom
    requires value == Total(coins[starts[|starts| - 1]..p]) && cost == TotalCost(coins[starts[|starts| - 1]..p])
    requires value >= denom > Total(coins[starts[|starts| - 1]..p - 1])
    requires forall k :: 0 <= k < |starts| - 1 ==> JustFull(coins, starts, k, denom)
    ensures starts' == starts + [p] && v' == v[items := Entry(value, cost, v[items].coin)]
    ensures forall i :: 0 <= i <= items ==> ItemOk(coins, v', big, starts', i) && v'[i].value >= denom
    ensures forall k :: 0 <= k < |starts'| - 1 ==> JustFull(coins, starts', k, denom)
  {
    hide Total, TotalCost, ItemOk, JustFull;
    starts' := starts + [p];
    v' := v[items := Entry(value, cost, v[items].coin)];
    LastItem(coins, v', big, starts, items, p);
    LastFull(coins, starts, p, denom);
    forall i | 0 <= i < items ensures ItemOk(coins, v', big, starts', i) && v'[i].value >= denom {
      assert ItemOk(coins, v, big, starts, i);
      ItemKept(coins, v, v', big, starts, [p], i);
    }
    forall k | 0 <= k < |starts| - 1 ensures JustFull(coins, starts', k, denom) {
      FullKept(coins, starts, p, k, denom);
    }
  }

  lemma LastItem(coins: seq<Entry>, v: seq<Entry>, big: nat, starts: seq<nat>, items: nat, p: nat)
    requires starts != [] && starts[0] == big && items == big + |starts| - 1 && items < |v|
    requires starts[|starts| - 1] < p <= |coins|
    requires v[items].value == Total(coins[starts[|starts| - 1]..p]) && v[items].cost == TotalCost(coins[starts[|starts| - 1]..p])
    ensures ItemOk(coins, v, big, starts + [p], items)
  {
    hide Total, TotalCost;
  }

  lemma LastFull(coins: seq<Entry>, starts: seq<nat>, p: nat, denom: nat)
    requires starts != [] && starts[|starts| - 1] < p <= |coins|
    requires Total(coins[starts[|starts| - 1]..p]) >= denom > Total(coins[starts[|starts| - 1]..p - 1])
    ensures JustFull(coins, starts + [p], |starts| - 1, denom)
  {
    hide Total;
  }

  lemma FullKept(coins: seq<Entry>, starts: seq<nat>, p: nat, k: nat, denom: nat)
    requires JustFull(coins, starts, k, denom)
    ensures JustFull(coins, starts + [p], k, denom)
  {
    hide Total;
  }
}
