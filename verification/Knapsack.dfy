/** The 0/1 knapsack inside coin selection: which items to drop so that the dropped weight fits and the
    dropped cost is greatest. */
module Knapsack {

  datatype Item = Item(weight: nat, cost: nat)

  /** The greatest cost that can be dropped from the first i items within weight j. */
  function Best(items: seq<Item>, i: nat, j: nat): nat
    requires i <= |items|
  {
    if i == 0 then 0
    else
      var skip, item := Best(items, i - 1, j), items[i - 1];
      if item.weight <= j && Best(items, i - 1, j - item.weight) + item.cost > skip
      then Best(items, i - 1, j - item.weight) + item.cost else skip
  }

  function WeightOf(items: seq<Item>, drop: seq<bool>): nat
    requires |drop| <= |items|
  {
    if drop == [] then 0
    else
      var n := |drop| - 1;
      WeightOf(items, drop[..n]) + if drop[n] then items[n].weight else 0
  }

  function CostOf(items: seq<Item>, drop: seq<bool>): nat
    requires |drop| <= |items|
  {
    if drop == [] then 0
    else
      var n := |drop| - 1;
      CostOf(items, drop[..n]) + if drop[n] then items[n].cost else 0
  }

  lemma DropNext(items: seq<Item>, drop: seq<bool>, k: nat)
    requires 0 < k <= |drop| <= |items|
    ensures WeightOf(items, drop[..k]) == WeightOf(items, drop[..k - 1]) + if drop[k - 1] then items[k - 1].weight else 0
    ensures CostOf(items, drop[..k]) == CostOf(items, drop[..k - 1]) + if drop[k - 1] then items[k - 1].cost else 0
  {
    assert drop[..k][..k - 1] == drop[..k - 1];
  }

  /** The column the traceback moves to; staying put means keeping item i - 1. */
  function Column(items: seq<Item>, i: nat, j: nat): nat
    requires 0 < i <= |items|
  {
    var item := items[i - 1];
    if item.weight <= j && Best(items, i - 1, j - item.weight) + item.cost > Best(items, i - 1, j)
    then j - item.weight else j
  }

  /** What the traceback from row i and column j drops. */
  function Drops(items: seq<Item>, i: nat, j: nat): (drop: seq<bool>)
    requires i <= |items|
    ensures |drop| == i
  {
    if i == 0 then [] else Drops(items, i - 1, Column(items, i, j)) + [Column(items, i, j) != j]
  }

  /** No choice that fits beats the table. */
  lemma {:induction false} BestIsGreatest(items: seq<Item>, drop: seq<bool>, j: nat)
    requires |drop| <= |items| && WeightOf(items, drop) <= j
    ensures CostOf(items, drop) <= Best(items, |drop|, j)
  {
    if drop != [] {
      var n := |drop| - 1;
      BestIsGreatest(items, drop[..n], if drop[n] then j - items[n].weight else j);
    }
  }

  /** The traceback never drops more weight than allowed. */
  lemma {:induction false} DropsFit(items: seq<Item>, i: nat, j: nat)
    requires i <= |items|
    ensures WeightOf(items, Drops(items, i, j)) <= j
  {
    if i > 0 {
      DropsFit(items, i - 1, Column(items, i, j));
      var d := Drops(items, i, j);
      assert d[..i - 1] == Drops(items, i - 1, Column(items, i, j));
    }
  }

  /** Items of weight zero are never dropped: their column stays put. */
  lemma {:induction false} WeightlessIsKept(items: seq<Item>, i: nat, j: nat, k: nat)
    requires k < i <= |items| && items[k].weight == 0
    ensures !Drops(items, i, j)[k]
  {
    if k < i - 1 {
      WeightlessIsKept(items, i - 1, Column(items, i, j), k);
    }
  }

  /** If items of weight zero cost nothing, the traceback drops exactly the greatest cost. */
  lemma {:induction false} DropsAreBest(items: seq<Item>, i: nat, j: nat)
    requires i <= |items| && forall k :: 0 <= k < |items| ==> items[k].weight > 0 || items[k].cost == 0
    ensures CostOf(items, Drops(items, i, j)) == Best(items, i, j)
  {
    if i > 0 {
      DropsAreBest(items, i - 1, Column(items, i, j));
      var d := Drops(items, i, j);
      assert d[..i - 1] == Drops(items, i - 1, Column(items, i, j));
    }
  }

  /** Fills the two matrices row by row. */
  method Fill(items: seq<Item>, columns: nat) returns (m: array2<nat>, b: array2<nat>)
    ensures m.Length0 == b.Length0 == |items| + 1 && m.Length1 == b.Length1 == columns
    ensures forall i, j :: 0 <= i <= |items| && 0 <= j < columns ==> m[i, j] == Best(items, i, j)
    ensures forall i, j :: 0 < i <= |items| && 0 <= j < columns ==> b[i, j] == Column(items, i, j)
  {
    m, b := new nat[|items| + 1, columns], new nat[|items| + 1, columns];
    for j := 0 to columns
      invariant forall j' :: 0 <= j' < j ==> m[0, j'] == 0
    {
      m[0, j] := 0;
    }
    for i := 1 to |items| + 1
      invariant forall i', j :: 0 <= i' < i && 0 <= j < columns ==> m[i', j] == Best(items, i', j)
      invariant forall i', j :: 0 < i' < i && 0 <= j < columns ==> b[i', j] == Column(items, i', j)
    {
      FillRow(items, columns, i, m, b);
    }
  }

  method FillRow(items: seq<Item>, columns: nat, i: nat, m: array2<nat>, b: array2<nat>)
    requires 0 < i <= |items| && m != b
    requires m.Length0 == b.Length0 == |items| + 1 && m.Length1 == b.Length1 == columns
    requires forall i', j :: 0 <= i' < i && 0 <= j < columns ==> m[i', j] == Best(items, i', j)
    modifies m, b
    ensures forall j :: 0 <= j < columns ==> m[i, j] == Best(items, i, j) && b[i, j] == Column(items, i, j)
    ensures forall i', j :: 0 <= i' <= |items| && i' != i && 0 <= j < columns ==>
      m[i', j] == old(m[i', j]) && b[i', j] == old(b[i', j])
  {
    var weight, cost := items[i - 1].weight, items[i - 1].cost;
    for j := 0 to columns
      invariant forall j' :: 0 <= j' < j ==> m[i, j'] == Best(items, i, j') && b[i, j'] == Column(items, i, j')
      invariant forall i', j :: 0 <= i' <= |items| && i' != i && 0 <= j < columns ==>
        m[i', j] == old(m[i', j]) && b[i', j] == old(b[i', j])
    {
      b[i, j] := j;
      if weight <= j {
        var step := m[i - 1, j - weight] + cost;
        if m[i - 1, j] >= step {
          m[i, j] := m[i - 1, j];
        } else {
          m[i, j] := step;
          b[i, j] := j - weight;
        }
      } else {
        m[i, j] := m[i - 1, j];
      }
    }
  }
}
