/** Lists of spendable coins and the sums over sets of them that coin selection reasons with. */
module CoinLists {
  import opened Primitives

  /** COutput with what selection reads of it; `cost` is its coin-age weight. */
  datatype Output = Output(coin: OutPoint, value: nat, cost: nat, depth: int, fromMe: bool, time: nat)

  /** An element of vValue. */
  datatype Entry = Entry(value: nat, cost: nat, coin: OutPoint)

  predicate DistinctCoins(v: seq<Entry>) {
    forall i, j :: 0 <= i < j < |v| ==> v[i].coin != v[j].coin
  }

  /** The coins at positions lo up to hi. */
  function Coins(v: seq<Entry>, lo: nat, hi: nat): set<OutPoint>
    requires lo <= hi <= |v|
  {
    set i | lo <= i < hi :: v[i].coin
  }

  function AllCoins(v: seq<Entry>): set<OutPoint> {
    Coins(v, 0, |v|)
  }

  /** The value of the listed coins that are in `sel`. */
  function SumIn(v: seq<Entry>, sel: set<OutPoint>): nat {
    if v == [] then 0 else (if v[0].coin in sel then v[0].value else 0) + SumIn(v[1..], sel)
  }

  /** The coin-age cost of the listed coins that are in `sel`. */
  function CostIn(v: seq<Entry>, sel: set<OutPoint>): nat {
    if v == [] then 0 else (if v[0].coin in sel then v[0].cost else 0) + CostIn(v[1..], sel)
  }

  function Total(v: seq<Entry>): nat {
    if v == [] then 0 else v[0].value + Total(v[1..])
  }

  function TotalCost(v: seq<Entry>): nat {
    if v == [] then 0 else v[0].cost + TotalCost(v[1..])
  }

  lemma {:induction false} TotalConcat(a: seq<Entry>, b: seq<Entry>)
    ensures Total(a + b) == Total(a) + Total(b) && TotalCost(a + b) == TotalCost(a) + TotalCost(b)
  {
    if a == [] {
      assert a + b == b;
    } else {
      TotalConcat(a[1..], b);
      assert (a + b)[1..] == a[1..] + b;
    }
  }

  lemma TotalNext(v: seq<Entry>, k: nat)
    requires 0 < k <= |v|
    ensures Total(v[..k]) == Total(v[..k - 1]) + v[k - 1].value && TotalCost(v[..k]) == TotalCost(v[..k - 1]) + v[k - 1].cost
  {
    assert v[..k] == v[..k - 1] + [v[k - 1]];
    TotalConcat(v[..k - 1], [v[k - 1]]);
    assert [v[k - 1]][1..] == [];
  }

  lemma {:induction false} SumConcat(a: seq<Entry>, b: seq<Entry>, sel: set<OutPoint>)
    ensures SumIn(a + b, sel) == SumIn(a, sel) + SumIn(b, sel)
    ensures CostIn(a + b, sel) == CostIn(a, sel) + CostIn(b, sel)
  {
    if a == [] {
      assert a + b == b;
    } else {
      SumConcat(a[1..], b, sel);
      assert (a + b)[1..] == a[1..] + b;
    }
  }

  lemma {:induction false} SumNone(v: seq<Entry>, sel: set<OutPoint>)
    requires forall i :: 0 <= i < |v| ==> v[i].coin !in sel
    ensures SumIn(v, sel) == CostIn(v, sel) == 0
  {
    if v != [] {
      SumNone(v[1..], sel);
    }
  }

  lemma {:induction false} SumWhole(v: seq<Entry>, sel: set<OutPoint>)
    requires forall i :: 0 <= i < |v| ==> v[i].coin in sel
    ensures SumIn(v, sel) == Total(v) && CostIn(v, sel) == TotalCost(v)
  {
    if v != [] {
      SumWhole(v[1..], sel);
    }
  }

  /** Only the listed coins of a set matter. */
  lemma {:induction false} SumAgree(v: seq<Entry>, a: set<OutPoint>, b: set<OutPoint>)
    requires forall i :: 0 <= i < |v| ==> (v[i].coin in a <==> v[i].coin in b)
    ensures SumIn(v, a) == SumIn(v, b) && CostIn(v, a) == CostIn(v, b)
  {
    if v != [] {
      SumAgree(v[1..], a, b);
    }
  }

  /** Adding a stretch of coins none of which was chosen adds exactly its value and cost. */
  lemma SumAddSpan(v: seq<Entry>, sel: set<OutPoint>, lo: nat, hi: nat)
    requires DistinctCoins(v) && lo <= hi <= |v| && Coins(v, lo, hi) !! sel
    ensures SumIn(v, sel + Coins(v, lo, hi)) == SumIn(v, sel) + Total(v[lo..hi])
    ensures CostIn(v, sel + Coins(v, lo, hi)) == CostIn(v, sel) + TotalCost(v[lo..hi])
  {
    var sel' := sel + Coins(v, lo, hi);
    var a, b, c := v[..lo], v[lo..hi], v[hi..];
    assert v == a + b + c;
    SumConcat(a + b, c, sel);
    SumConcat(a, b, sel);
    SumConcat(a + b, c, sel');
    SumConcat(a, b, sel');
    forall i | 0 <= i < |a| ensures a[i].coin in sel <==> a[i].coin in sel' { assert a[i] == v[i]; }
    forall i | 0 <= i < |c| ensures c[i].coin in sel <==> c[i].coin in sel' { assert c[i] == v[hi + i]; }
    forall i | 0 <= i < |b| ensures b[i].coin in sel' && b[i].coin !in sel { assert b[i] == v[lo + i]; }
    SumAgree(a, sel, sel');
    SumAgree(c, sel, sel');
    SumNone(b, sel);
    SumWhole(b, sel');
  }

  lemma SpansApart(v: seq<Entry>, a: nat, b: nat, c: nat, d: nat)
    requires DistinctCoins(v) && a <= b <= |v| && c <= d <= |v| && (b <= c || d <= a)
    ensures Coins(v, a, b) !! Coins(v, c, d)
  {
  }

  // ----- sorting and filtering keep the sums

  function Insert(o: Output, s: seq<Output>): seq<Output> {
    if s == [] || o.cost <= s[0].cost then [o] + s else [s[0]] + Insert(o, s[1..])
  }

  /** The coins in order of cost. */
  function SortByCost(s: seq<Output>): seq<Output> {
    if s == [] then [] else Insert(s[0], SortByCost(s[1..]))
  }

  function AsEntry(o: Output): Entry {
    Entry(o.value, o.cost, o.coin)
  }

  function Entries(s: seq<Output>): (v: seq<Entry>)
    ensures |v| == |s| && forall i :: 0 <= i < |s| ==> v[i] == AsEntry(s[i])
  {
    seq(|s|, i requires 0 <= i < |s| => AsEntry(s[i]))
  }

  predicate DistinctOutputs(s: seq<Output>) {
    forall i, j :: 0 <= i < j < |s| ==> s[i].coin != s[j].coin
  }

  lemma EntriesCons(o: Output, s: seq<Output>)
    ensures Entries([o] + s) == [AsEntry(o)] + Entries(s)
  {
  }

  lemma {:induction false} InsertKeeps(o: Output, s: seq<Output>)
    ensures multiset(Insert(o, s)) == multiset([o] + s)
    ensures forall x :: x in Insert(o, s) <==> x == o || x in s
  {
    if s != [] && o.cost > s[0].cost {
      InsertKeeps(o, s[1..]);
      assert s == [s[0]] + s[1..];
    }
  }

  lemma {:induction false} InsertSum(o: Output, s: seq<Output>, sel: set<OutPoint>)
    ensures SumIn(Entries(Insert(o, s)), sel) == (if o.coin in sel then o.value else 0) + SumIn(Entries(s), sel)
    ensures CostIn(Entries(Insert(o, s)), sel) == (if o.coin in sel then o.cost else 0) + CostIn(Entries(s), sel)
  {
    if s == [] || o.cost <= s[0].cost {
      EntriesCons(o, s);
    } else {
      InsertSum(o, s[1..], sel);
      EntriesCons(s[0], Insert(o, s[1..]));
      EntriesCons(s[0], s[1..]);
      assert s == [s[0]] + s[1..];
    }
  }

  lemma {:induction false} InsertDistinct(o: Output, s: seq<Output>)
    requires DistinctOutputs(s) && forall x :: x in s ==> x.coin != o.coin
    ensures DistinctOutputs(Insert(o, s))
  {
    if s != [] && o.cost > s[0].cost {
      InsertDistinct(o, s[1..]);
      InsertKeeps(o, s[1..]);
      var t := Insert(o, s[1..]);
      forall i | 0 <= i < |t| ensures t[i].coin != s[0].coin { assert t[i] in t; }
    }
  }

  predicate SortedByCost(s: seq<Output>) {
    forall i, j :: 0 <= i < j < |s| ==> s[i].cost <= s[j].cost
  }

  lemma {:induction false} InsertSorted(o: Output, s: seq<Output>)
    requires SortedByCost(s)
    ensures SortedByCost(Insert(o, s))
  {
    if s != [] && o.cost > s[0].cost {
      InsertSorted(o, s[1..]);
      InsertKeeps(o, s[1..]);
      var t := Insert(o, s[1..]);
      forall i | 0 <= i < |t| ensures s[0].cost <= t[i].cost { assert t[i] in t; }
    }
  }

  /** Sorting orders the same coins by cost. */
  lemma {:induction false} SortKeeps(s: seq<Output>)
    ensures multiset(SortByCost(s)) == multiset(s) && SortedByCost(SortByCost(s))
    ensures forall x :: x in SortByCost(s) <==> x in s
    ensures DistinctOutputs(s) ==> DistinctOutputs(SortByCost(s))
  {
    if s != [] {
      var rest := SortByCost(s[1..]);
      SortKeeps(s[1..]);
      InsertKeeps(s[0], rest);
      InsertSorted(s[0], rest);
      assert s == [s[0]] + s[1..];
      if DistinctOutputs(s) {
        InsertDistinct(s[0], rest);
      }
    }
  }

  lemma {:induction false} SortSum(s: seq<Output>, sel: set<OutPoint>)
    ensures SumIn(Entries(SortByCost(s)), sel) == SumIn(Entries(s), sel)
    ensures CostIn(Entries(SortByCost(s)), sel) == CostIn(Entries(s), sel)
  {
    if s != [] {
      SortSum(s[1..], sel);
      InsertSum(s[0], SortByCost(s[1..]), sel);
      EntriesCons(s[0], s[1..]);
      assert s == [s[0]] + s[1..];
    }
  }

  // ----- the coins a selection may use

  datatype Rules = Rules(target: nat, spendTime: nat, confMine: int, confTheirs: int)

  /** Deep enough, and not younger than the spending transaction. */
  predicate Eligible(r: Rules, o: Output) {
    o.depth >= (if o.fromMe then r.confMine else r.confTheirs) && o.time <= r.spendTime
  }

  predicate IsLower(r: Rules, o: Output) {
    Eligible(r, o) && o.value < r.target + CENT
  }

  /** The eligible coins below the target plus one cent. */
  function Lower(r: Rules, s: seq<Output>): seq<Entry> {
    if s == [] then [] else (if IsLower(r, s[0]) then [AsEntry(s[0])] else []) + Lower(r, s[1..])
  }

  lemma {:induction false} LowerSnoc(r: Rules, s: seq<Output>, o: Output)
    ensures Lower(r, s + [o]) == Lower(r, s) + if IsLower(r, o) then [AsEntry(o)] else []
  {
    if s == [] {
      assert s + [o] == [o];
      assert [o][1..] == [];
    } else {
      LowerSnoc(r, s[1..], o);
      assert (s + [o])[1..] == s[1..] + [o];
    }
  }

  lemma {:induction false} LowerCoins(r: Rules, s: seq<Output>)
    ensures forall e :: e in Lower(r, s) ==> exists o :: o in s && IsLower(r, o) && e == AsEntry(o)
    ensures DistinctOutputs(s) ==> DistinctCoins(Lower(r, s))
  {
    if s != [] {
      LowerCoins(r, s[1..]);
      var head, tail := s[0], Lower(r, s[1..]);
      forall e | e in Lower(r, s)
        ensures exists o :: o in s && IsLower(r, o) && e == AsEntry(o)
      {
        if e in tail {
          var o :| o in s[1..] && IsLower(r, o) && e == AsEntry(o);
          assert o in s;
        } else {
          assert head in s && IsLower(r, head);
        }
      }
      if DistinctOutputs(s) && IsLower(r, head) {
        forall i | 0 <= i < |tail|
          ensures tail[i].coin != head.coin
        {
          assert tail[i] in tail;
          var o :| o in s[1..] && IsLower(r, o) && tail[i] == AsEntry(o);
        }
      }
    }
  }

  /** A set of lower coins is worth the same in the whole list. */
  lemma {:induction false} LowerSum(r: Rules, s: seq<Output>, sel: set<OutPoint>)
    requires DistinctOutputs(s)
    requires forall o :: o in s && o.coin in sel ==> IsLower(r, o)
    ensures SumIn(Lower(r, s), sel) == SumIn(Entries(s), sel)
    ensures CostIn(Lower(r, s), sel) == CostIn(Entries(s), sel)
  {
    if s != [] {
      LowerSum(r, s[1..], sel);
      EntriesCons(s[0], s[1..]);
      assert s == [s[0]] + s[1..] && s[0] in s;
      SumConcat(if IsLower(r, s[0]) then [AsEntry(s[0])] else [], Lower(r, s[1..]), sel);
      SumConcat([AsEntry(s[0])], Entries(s[1..]), sel);
    }
  }

  lemma {:induction false} LowerInsert(r: Rules, o: Output, s: seq<Output>)
    ensures Total(Lower(r, Insert(o, s))) == (if IsLower(r, o) then o.value else 0) + Total(Lower(r, s))
  {
    if s == [] || o.cost <= s[0].cost {
      assert ([o] + s)[1..] == s;
      TotalConcat(if IsLower(r, o) then [AsEntry(o)] else [], Lower(r, s));
    } else {
      LowerInsert(r, o, s[1..]);
      assert Insert(o, s)[1..] == Insert(o, s[1..]);
      TotalConcat(if IsLower(r, s[0]) then [AsEntry(s[0])] else [], Lower(r, Insert(o, s[1..])));
      TotalConcat(if IsLower(r, s[0]) then [AsEntry(s[0])] else [], Lower(r, s[1..]));
    }
  }

  lemma {:induction false} LowerSort(r: Rules, s: seq<Output>)
    ensures Total(Lower(r, SortByCost(s))) == Total(Lower(r, s))
  {
    if s != [] {
      LowerSort(r, s[1..]);
      LowerInsert(r, s[0], SortByCost(s[1..]));
      TotalConcat(if IsLower(r, s[0]) then [AsEntry(s[0])] else [], Lower(r, s[1..]));
    }
  }

  // ----- stable_partition

  function Filter(v: seq<Entry>, bound: nat, atLeast: bool): seq<Entry> {
    if v == [] then [] else (if (v[0].value >= bound) == atLeast then [v[0]] else []) + Filter(v[1..], bound, atLeast)
  }

  /** The coins of at least `bound` first, then the smaller ones, each in their old order. */
  function Partition(v: seq<Entry>, bound: nat): seq<Entry> {
    Filter(v, bound, true) + Filter(v, bound, false)
  }

  lemma {:induction false} FilterElems(v: seq<Entry>, bound: nat, atLeast: bool)
    ensures forall e :: e in Filter(v, bound, atLeast) ==> e in v && ((e.value >= bound) == atLeast)
  {
    if v != [] {
      FilterElems(v[1..], bound, atLeast);
    }
  }

  lemma {:induction false} FilterSums(v: seq<Entry>, bound: nat, sel: set<OutPoint>)
    ensures SumIn(Filter(v, bound, true), sel) + SumIn(Filter(v, bound, false), sel) == SumIn(v, sel)
    ensures CostIn(Filter(v, bound, true), sel) + CostIn(Filter(v, bound, false), sel) == CostIn(v, sel)
    ensures Total(Filter(v, bound, true)) + Total(Filter(v, bound, false)) == Total(v)
    ensures |Filter(v, bound, true)| + |Filter(v, bound, false)| == |v|
  {
    if v != [] {
      FilterSums(v[1..], bound, sel);
      var a, b := Filter(v[1..], bound, true), Filter(v[1..], bound, false);
      assert ([v[0]] + a)[1..] == a && ([v[0]] + b)[1..] == b;
      assert [] + a == a && [] + b == b;
    }
  }

  /** Partitioning keeps every sum. */
  lemma PartitionSum(v: seq<Entry>, bound: nat, sel: set<OutPoint>)
    ensures SumIn(Partition(v, bound), sel) == SumIn(v, sel) && CostIn(Partition(v, bound), sel) == CostIn(v, sel)
    ensures Total(Partition(v, bound)) == Total(v) && |Partition(v, bound)| == |v|
  {
    FilterSums(v, bound, sel);
    SumConcat(Filter(v, bound, true), Filter(v, bound, false), sel);
    TotalConcat(Filter(v, bound, true), Filter(v, bound, false));
  }

  lemma {:induction false} FilterDistinct(v: seq<Entry>, bound: nat, atLeast: bool)
    requires DistinctCoins(v)
    ensures DistinctCoins(Filter(v, bound, atLeast))
  {
    if v != [] {
      var rest := Filter(v[1..], bound, atLeast);
      FilterDistinct(v[1..], bound, atLeast);
      FilterElems(v[1..], bound, atLeast);
      forall i | 0 <= i < |rest| ensures rest[i].coin != v[0].coin { assert rest[i] in v[1..]; }
    }
  }

  lemma PartitionDistinct(v: seq<Entry>, bound: nat)
    requires DistinctCoins(v)
    ensures DistinctCoins(Partition(v, bound))
    ensures forall e :: e in Partition(v, bound) ==> e in v
  {
    var a, b := Filter(v, bound, true), Filter(v, bound, false);
    FilterDistinct(v, bound, true);
    FilterDistinct(v, bound, false);
    FilterElems(v, bound, true);
    FilterElems(v, bound, false);
    forall i, j | 0 <= i < |a| && 0 <= j < |b|
      ensures a[i].coin != b[j].coin
    {
      assert a[i] in a && b[j] in b;
      var p :| 0 <= p < |v| && v[p] == a[i];
      var q :| 0 <= q < |v| && v[q] == b[j];
    }
  }
}
