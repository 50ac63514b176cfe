/** The default coin selection: a randomised search for a subset just above the target. */
module SelectBySubset {
  import opened Primitives
  import opened CoinLists
  import opened SelectByCoinAge

  // ----- flags over a list

  /** The value of the flagged entries. */
  function Flagged(v: seq<Entry>, flags: seq<bool>): nat
    requires |v| == |flags|
  {
    if v == [] then 0 else (if flags[0] then v[0].value else 0) + Flagged(v[1..], flags[1..])
  }

  lemma {:induction false} FlaggedUpdate(v: seq<Entry>, flags: seq<bool>, i: nat, b: bool)
    requires |v| == |flags| && i < |v|
    ensures Flagged(v, flags[i := b]) == Flagged(v, flags) + (if b then v[i].value else 0) - (if flags[i] then v[i].value else 0)
  {
    if i > 0 {
      assert flags[i := b][1..] == flags[1..][i - 1 := b];
      FlaggedUpdate(v[1..], flags[1..], i - 1, b);
    } else {
      assert flags[i := b][1..] == flags[1..];
    }
  }

  function Repeat(n: nat, b: bool): seq<bool> {
    seq(n, _ => b)
  }

  lemma {:induction false} FlaggedAlike(v: seq<Entry>, b: bool)
    ensures Flagged(v, Repeat(|v|, b)) == if b then Total(v) else 0
  {
    if v != [] {
      assert Repeat(|v|, b)[1..] == Repeat(|v[1..]|, b);
      FlaggedAlike(v[1..], b);
    }
  }

  function FlaggedCoins(v: seq<Entry>, flags: seq<bool>): set<OutPoint>
    requires |v| == |flags|
  {
    set i | 0 <= i < |v| && flags[i] :: v[i].coin
  }

  /** Among distinct coins, the flags and the set of flagged coins are worth the same. */
  lemma {:induction false} FlaggedIsSum(v: seq<Entry>, flags: seq<bool>, sel: set<OutPoint>)
    requires |v| == |flags| && forall i :: 0 <= i < |v| ==> (v[i].coin in sel <==> flags[i])
    ensures Flagged(v, flags) == SumIn(v, sel)
  {
    if v != [] {
      assert v[0].coin in sel <==> flags[0];
      forall i | 0 <= i < |v[1..]|
        ensures v[1..][i].coin in sel <==> flags[1..][i]
      {
        assert v[1..][i] == v[i + 1] && flags[1..][i] == flags[i + 1];
      }
      FlaggedIsSum(v[1..], flags[1..], sel);
    }
  }

  // ----- ApproximateBestSubset

  /** Whether the entry is tried: in the first pass the random bit says so, in the second that it is still out. */
  predicate IsTried(included: seq<bool>, pass: nat, bits: nat -> bool, i: nat)
    requires i < |included|
  {
    if pass == 0 then bits(i) else !included[i]
  }

  /** What is included after the first i entries of a pass: those tried that left the total below the target. */
  function Walked(v: seq<Entry>, target: nat, pass: nat, bits: nat -> bool, i: nat): (included: seq<bool>)
    requires i <= |v|
    ensures |included| == |v|
    decreases pass, i
  {
    if i == 0 then (if pass == 0 then Repeat(|v|, false) else Walked(v, target, pass - 1, bits, |v|))
    else
      var before := Walked(v, target, pass, bits, i - 1);
      if IsTried(before, pass, bits, i - 1) && Flagged(v, before[i - 1 := true]) < target then before[i - 1 := true] else before
  }

  /** At entry i of a pass, the entries included so far and this one together reach the target. */
  predicate Hits(v: seq<Entry>, target: nat, pass: nat, bits: nat -> bool, i: nat)
    requires i < |v|
  {
    IsTried(Walked(v, target, pass, bits, i), pass, bits, i) && HitTotal(v, target, pass, bits, i) >= target
  }

  function HitTotal(v: seq<Entry>, target: nat, pass: nat, bits: nat -> bool, i: nat): nat
    requires i < |v|
  {
    Flagged(v, Walked(v, target, pass, bits, i)[i := true])
  }

  /** A total that one repetition reaches: in the first pass, or in the second if the first reached none. */
  ghost predicate Found(v: seq<Entry>, target: nat, pass: nat, bits: nat -> bool, i: nat) {
    && i < |v| && pass < 2 && Hits(v, target, pass, bits, i)
    && (pass == 1 ==> forall j :: 0 <= j < |v| ==> !Hits(v, target, 0, bits, j))
  }

  /** These flags are the ones one repetition has when it reaches that total. */
  ghost predicate IsFound(v: seq<Entry>, target: nat, bits: nat -> bool, best: seq<bool>, sum: nat) {
    exists pass: nat, i: nat :: Found(v, target, pass, bits, i) && best == Walked(v, target, pass, bits, i)[i := true] && sum == HitTotal(v, target, pass, bits, i)
  }

  /** One repetition keeps the least of the old total and all it reaches. */
  ghost predicate TakesLeast(v: seq<Entry>, target: nat, bits: nat -> bool, best: seq<bool>, sum: nat, best': seq<bool>, sum': nat) {
    && (forall pass: nat, i: nat :: Found(v, target, pass, bits, i) ==> sum' <= HitTotal(v, target, pass, bits, i))
    && sum' <= sum && ((best', sum') == (best, sum) || IsFound(v, target, bits, best', sum'))
  }

  /** One repetition: a random pass, then one that tries what was left out. */
  method TrySubset(v: seq<Entry>, target: nat, bits: nat -> bool, best: seq<bool>, sum: nat) returns (best': seq<bool>, sum': nat)
    requires |best| == |v| && sum == Flagged(v, best) && sum >= target
    ensures |best'| == |v| && sum' == Flagged(v, best') && target <= sum' <= sum
    ensures TakesLeast(v, target, bits, best, sum, best', sum')
  {
    hide Flagged, PassedLeast, TakesLeast;
    var reached;
    best', sum', reached := OnePass(v, target, 0, bits, best, sum);
    if reached {
      FirstPassOnly(v, target, bits, best, sum, best', sum');
    } else {
      ghost var best1, sum1 := best', sum';
      best', sum', reached := OnePass(v, target, 1, bits, best', sum');
      BothPasses(v, target, bits, best, sum, best1, sum1, best', sum');
    }
  }

  lemma FirstPassOnly(v: seq<Entry>, target: nat, bits: nat -> bool, best: seq<bool>, sum: nat, best': seq<bool>, sum': nat)
    requires PassedLeast(v, target, 0, bits, |v|, best, sum, best', sum')
    requires exists i :: 0 <= i < |v| && Hits(v, target, 0, bits, i)
    ensures TakesLeast(v, target, bits, best, sum, best', sum')
  {
    hide Hits, HitTotal, Walked;
    if (best', sum') != (best, sum) {
      var i :| 0 <= i < |v| && Hits(v, target, 0, bits, i) && best' == Walked(v, target, 0, bits, i)[i := true] && sum' == HitTotal(v, target, 0, bits, i);
      assert Found(v, target, 0, bits, i);
    }
  }

  lemma BothPasses(v: seq<Entry>, target: nat, bits: nat -> bool, best: seq<bool>, sum: nat, best1: seq<bool>, sum1: nat,
                   best': seq<bool>, sum': nat)
    requires PassedLeast(v, target, 0, bits, |v|, best, sum, best1, sum1) && PassedLeast(v, target, 1, bits, |v|, best1, sum1, best', sum')
    requires !exists i :: 0 <= i < |v| && Hits(v, target, 0, bits, i)
    ensures TakesLeast(v, target, bits, best, sum, best', sum')
  {
    hide Hits, HitTotal, Walked;
    if (best', sum') != (best1, sum1) {
      var i :| 0 <= i < |v| && Hits(v, target, 1, bits, i) && best' == Walked(v, target, 1, bits, i)[i := true] && sum' == HitTotal(v, target, 1, bits, i);
      assert Found(v, target, 1, bits, i);
    }
  }

  // ----- what the random bits guarantee

  /** The entries the bits name. */
  function Named(n: nat, bits: nat -> bool): (flags: seq<bool>)
    ensures |flags| == n && forall i :: 0 <= i < n ==> flags[i] == bits(i)
  {
    seq(n, i requires 0 <= i < n => bits(i))
  }

  /** Those of them among the first k. */
  function Front(flags: seq<bool>, k: nat): (front: seq<bool>)
    ensures |front| == |flags| && forall i :: 0 <= i < |flags| ==> front[i] == (i < k && flags[i])
  {
    seq(|flags|, i requires 0 <= i < |flags| => i < k && flags[i])
  }

  /** The flagged entries and all of the first k. */
  function Filled(flags: seq<bool>, k: nat): (filled: seq<bool>)
    ensures |filled| == |flags| && forall i :: 0 <= i < |flags| ==> filled[i] == (i < k || flags[i])
  {
    seq(|flags|, i requires 0 <= i < |flags| => i < k || flags[i])
  }

  lemma {:induction false} FlaggedMono(v: seq<Entry>, a: seq<bool>, b: seq<bool>)
    requires |a| == |b| == |v| && forall i :: 0 <= i < |v| && a[i] ==> b[i]
    ensures Flagged(v, a) <= Flagged(v, b)
  {
    if v != [] {
      assert forall i :: 0 <= i < |v[1..]| && a[1..][i] ==> b[1..][i] by {
        assert forall i :: 0 <= i < |v[1..]| ==> a[1..][i] == a[i + 1] && b[1..][i] == b[i + 1];
      }
      FlaggedMono(v[1..], a[1..], b[1..]);
    }
  }

  /** As long as the first pass has not reached the target, it includes exactly what the bits name. */
  lemma {:induction false} WalkedFirst(v: seq<Entry>, target: nat, bits: nat -> bool, i: nat)
    requires i <= |v| && forall j :: 0 <= j < i ==> !Hits(v, target, 0, bits, j)
    ensures Walked(v, target, 0, bits, i) == Front(Named(|v|, bits), i)
  {
    hide Flagged;
    if i > 0 {
      WalkedFirst(v, target, bits, i - 1);
      assert !Hits(v, target, 0, bits, i - 1);
    }
  }

  /** As long as the second has not, it includes those and all it has passed. */
  lemma {:induction false} WalkedSecond(v: seq<Entry>, target: nat, bits: nat -> bool, i: nat)
    requires i <= |v| && (forall j :: 0 <= j < |v| ==> !Hits(v, target, 0, bits, j))
    requires forall j :: 0 <= j < i ==> !Hits(v, target, 1, bits, j)
    ensures Walked(v, target, 1, bits, i) == Filled(Named(|v|, bits), i)
  {
    hide Flagged;
    if i > 0 {
      WalkedSecond(v, target, bits, i - 1);
      assert !Hits(v, target, 1, bits, i - 1);
    } else {
      WalkedFirst(v, target, bits, |v|);
    }
  }

  /** What is included stays below the target. */
  lemma {:induction false} WalkedBelow(v: seq<Entry>, target: nat, pass: nat, bits: nat -> bool, i: nat)
    requires i <= |v| && target > 0
    ensures Flagged(v, Walked(v, target, pass, bits, i)) < target
    decreases pass, i
  {
    hide Flagged;
    if i > 0 {
      WalkedBelow(v, target, pass, bits, i - 1);
    } else if pass > 0 {
      WalkedBelow(v, target, pass - 1, bits, |v|);
    } else {
      FlaggedAlike(v, false);
    }
  }

  lemma {:induction false} FirstOf(v: seq<Entry>, target: nat, pass: nat, bits: nat -> bool, n: nat) returns (r: Option<nat>)
    requires n <= |v|
    ensures r.Some? ==> r.value < n && Hits(v, target, pass, bits, r.value) && forall j :: 0 <= j < r.value ==> !Hits(v, target, pass, bits, j)
    ensures r.None? ==> forall j :: 0 <= j < n ==> !Hits(v, target, pass, bits, j)
  {
    r := None;
    if n > 0 {
      r := FirstOf(v, target, pass, bits, n - 1);
      if r.None? && Hits(v, target, pass, bits, n - 1) {
        r := Some(n - 1);
      }
    }
  }

  /** The first total reached is worth no more than all that the bits name. */
  lemma FirstIsNamed(v: seq<Entry>, target: nat, bits: nat -> bool, i: nat)
    requires i < |v| && Hits(v, target, 0, bits, i) && forall j :: 0 <= j < i ==> !Hits(v, target, 0, bits, j)
    ensures HitTotal(v, target, 0, bits, i) <= Flagged(v, Named(|v|, bits))
  {
    hide Flagged, Walked;
    WalkedFirst(v, target, bits, i);
    FlaggedMono(v, Walked(v, target, 0, bits, i)[i := true], Named(|v|, bits));
  }

  lemma FirstHit(v: seq<Entry>, target: nat, bits: nat -> bool) returns (i: nat)
    requires Flagged(v, Named(|v|, bits)) >= target > 0
    ensures i < |v| && Hits(v, target, 0, bits, i) && HitTotal(v, target, 0, bits, i) <= Flagged(v, Named(|v|, bits))
  {
    hide Flagged, Walked, Hits, HitTotal;
    var first := FirstOf(v, target, 0, bits, |v|);
    assert Front(Named(|v|, bits), |v|) == Named(|v|, bits);
    WalkedBelow(v, target, 0, bits, |v|);
    if first.None? {
      WalkedFirst(v, target, bits, |v|);
      assert false;
    }
    i := first.value;
    FirstIsNamed(v, target, bits, i);
  }

  lemma SecondHit(v: seq<Entry>, target: nat, bits: nat -> bool, k: nat) returns (i: nat)
    requires target > 0 && k <= |v| && Flagged(v, Named(|v|, bits)) < target <= Flagged(v, Filled(Named(|v|, bits), k))
    ensures i < |v| && Hits(v, target, 1, bits, i) && forall j :: 0 <= j < |v| ==> !Hits(v, target, 0, bits, j)
    ensures HitTotal(v, target, 1, bits, i) <= Flagged(v, Filled(Named(|v|, bits), k))
  {
    hide Flagged, Walked, Hits, HitTotal;
    var none := FirstOf(v, target, 0, bits, |v|);
    if none.Some? {
      HitReaches(v, target, 0, bits, none.value);
      FirstIsNamed(v, target, bits, none.value);
      assert false;
    }
    var second := FirstOf(v, target, 1, bits, k);
    WalkedBelow(v, target, 1, bits, k);
    if second.None? {
      WalkedSecond(v, target, bits, k);
      assert false;
    }
    i := second.value;
    WalkedSecond(v, target, bits, i);
    SecondIsFilled(v, target, bits, i, k);
  }

  lemma HitReaches(v: seq<Entry>, target: nat, pass: nat, bits: nat -> bool, i: nat)
    requires i < |v| && Hits(v, target, pass, bits, i)
    ensures HitTotal(v, target, pass, bits, i) >= target
  {
  }

  lemma SecondIsFilled(v: seq<Entry>, target: nat, bits: nat -> bool, i: nat, k: nat)
    requires i < k <= |v| && Walked(v, target, 1, bits, i) == Filled(Named(|v|, bits), i)
    ensures HitTotal(v, target, 1, bits, i) <= Flagged(v, Filled(Named(|v|, bits), k))
  {
    hide Flagged, Walked;
    FlaggedMono(v, Walked(v, target, 1, bits, i)[i := true], Filled(Named(|v|, bits), k));
  }

  /** The whole search: no repetition's bits name anything that reaches the target and is worth less than the result. In
      particular the result is exact as soon as one repetition names coins worth exactly the target. */
  lemma SearchBounds(v: seq<Entry>, target: nat, bits: Luck, n: nat, best: seq<bool>, sum: nat, rep: nat, k: nat)
    requires LeastFound(v, target, bits, n, best, sum) && target > 0 && rep < n && k <= |v|
    ensures var named := Named(|v|, Row(bits, rep));
            && (Flagged(v, named) >= target ==> sum <= Flagged(v, named))
            && (Flagged(v, named) < target <= Flagged(v, Filled(named, k)) ==> sum <= Flagged(v, Filled(named, k)))
  {
    hide Flagged, Walked, IsFound, Hits, HitTotal;
    var named := Named(|v|, Row(bits, rep));
    if Flagged(v, named) >= target {
      var i := FirstHit(v, target, Row(bits, rep));
      assert Found(v, target, 0, Row(bits, rep), i);
    } else if Flagged(v, Filled(named, k)) >= target {
      var i := SecondHit(v, target, Row(bits, rep), k);
      assert Found(v, target, 1, Row(bits, rep), i);
    }
  }

  /** Every total the pass reaches among its first n entries. */
  ghost predicate PassedLeast(v: seq<Entry>, target: nat, pass: nat, bits: nat -> bool, n: nat, best: seq<bool>, sum: nat,
                              best': seq<bool>, sum': nat)
    requires n <= |v|
  {
    && (forall i :: 0 <= i < n && Hits(v, target, pass, bits, i) ==> sum' <= HitTotal(v, target, pass, bits, i))
    && sum' <= sum && ((best', sum') == (best, sum) || HitAt(v, target, pass, bits, n, best', sum'))
  }

  ghost predicate HitAt(v: seq<Entry>, target: nat, pass: nat, bits: nat -> bool, n: nat, best: seq<bool>, sum: nat)
    requires n <= |v|
  {
    exists i :: 0 <= i < n && Hits(v, target, pass, bits, i) && best == Walked(v, target, pass, bits, i)[i := true] && sum == HitTotal(v, target, pass, bits, i)
  }

  method OnePass(v: seq<Entry>, target: nat, pass: nat, bits: nat -> bool, best: seq<bool>, sum: nat)
    returns (best': seq<bool>, sum': nat, reached: bool)
    requires |best| == |v| && sum == Flagged(v, best) && sum >= target
    ensures |best'| == |v| && sum' == Flagged(v, best') && target <= sum' <= sum
    ensures reached <==> exists i :: 0 <= i < |v| && Hits(v, target, pass, bits, i)
    ensures PassedLeast(v, target, pass, bits, |v|, best, sum, best', sum')
  {
    hide Flagged, IsTried;
    best', sum', reached := best, sum, false;
    var included := Walked(v, target, pass, bits, 0);
    var total := Flagged(v, included);
    for i := 0 to |v|
      invariant included == Walked(v, target, pass, bits, i) && total == Flagged(v, included)
      invariant |best'| == |v| && sum' == Flagged(v, best') && target <= sum' <= sum
      invariant reached <==> exists j :: 0 <= j < i && Hits(v, target, pass, bits, j)
      invariant PassedLeast(v, target, pass, bits, i, best, sum, best', sum')
    {
      ghost var best0, sum0 := best', sum';
      if IsTried(included, pass, bits, i) {
        FlaggedUpdate(v, included, i, true);
        NotYetIn(v, target, pass, bits, i);
        total := total + v[i].value;
        included := included[i := true];
        if total >= target {
          reached := true;
          if total < sum' {
            sum', best' := total, included;
          }
          FlaggedUpdate(v, included, i, false);
          total := total - v[i].value;
          included := included[i := false];
        }
      }
      PassNext(v, target, pass, bits, i, best, sum, best0, sum0, best', sum');
    }
  }

  lemma PassNext(v: seq<Entry>, target: nat, pass: nat, bits: nat -> bool, i: nat, best: seq<bool>, sum: nat,
                 best0: seq<bool>, sum0: nat, best': seq<bool>, sum': nat)
    requires i < |v| && PassedLeast(v, target, pass, bits, i, best, sum, best0, sum0)
    requires if Hits(v, target, pass, bits, i) && HitTotal(v, target, pass, bits, i) < sum0
             then best' == Walked(v, target, pass, bits, i)[i := true] && sum' == HitTotal(v, target, pass, bits, i)
             else (best', sum') == (best0, sum0)
    ensures PassedLeast(v, target, pass, bits, i + 1, best, sum, best', sum')
  {
    hide Hits, HitTotal, Walked;
  }

  /** An entry is tried only while it is out. */
  lemma NotYetIn(v: seq<Entry>, target: nat, pass: nat, bits: nat -> bool, i: nat)
    requires i < |v| && IsTried(Walked(v, target, pass, bits, i), pass, bits, i)
    ensures !Walked(v, target, pass, bits, i)[i]
  {
    if pass == 0 {
      LaterAreOut(v, target, bits, i, i);
    }
  }

  lemma {:induction false} LaterAreOut(v: seq<Entry>, target: nat, bits: nat -> bool, i: nat, j: nat)
    requires i <= j < |v|
    ensures !Walked(v, target, 0, bits, i)[j]
  {
    if i > 0 {
      LaterAreOut(v, target, bits, i - 1, j);
    }
  }
  /** The random bits of one search: by repetition and entry. */
  type Luck = (nat, nat) -> bool

  function Row(bits: Luck, rep: nat): nat -> bool {
    (k: nat) => bits(rep, k)
  }

  /** The least total that any of the first n repetitions reaches, or all coins. */
  ghost predicate LeastFound(v: seq<Entry>, target: nat, bits: Luck, n: nat, best: seq<bool>, sum: nat) {
    && (forall rep: nat, pass: nat, i: nat :: rep < n && Found(v, target, pass, Row(bits, rep), i) ==>
          sum <= HitTotal(v, target, pass, Row(bits, rep), i))
    && (best == Repeat(|v|, true) || exists rep: nat :: rep < n && IsFound(v, target, Row(bits, rep), best, sum))
  }

  lemma OneMoreRepetition(v: seq<Entry>, target: nat, bits: Luck, n: nat, best0: seq<bool>, sum0: nat, best: seq<bool>, sum: nat)
    requires LeastFound(v, target, bits, n, best0, sum0) && TakesLeast(v, target, Row(bits, n), best0, sum0, best, sum)
    ensures LeastFound(v, target, bits, n + 1, best, sum)
  {
    hide Found, HitTotal, IsFound;
  }

  /** The random search. Its result is the least total that any of its repetitions reaches. */
  method ApproximateBestSubset(v: seq<Entry>, totalLower: nat, target: nat, iterations: nat, bits: Luck)
    returns (best: seq<bool>, sum: nat)
    requires totalLower == Total(v) && target <= totalLower
    ensures |best| == |v| && sum == Flagged(v, best) && target <= sum <= totalLower
    ensures LeastFound(v, target, bits, iterations, best, sum)
  {
    best, sum := Repeat(|v|, true), totalLower;
    FlaggedAlike(v, true);
    var rep := 0;
    while rep < iterations && sum != target
      invariant rep <= iterations && |best| == |v| && sum == Flagged(v, best) && target <= sum <= totalLower
      invariant LeastFound(v, target, bits, rep, best, sum)
    {
      ghost var best0, sum0 := best, sum;
      best, sum := TrySubset(v, target, Row(bits, rep), best, sum);
      OneMoreRepetition(v, target, bits, rep, best0, sum0, best, sum);
      rep := rep + 1;
    }
  }

  // ----- SelectCoinsMinConf

  predicate IsBigger(r: Rules, o: Output) {
    Eligible(r, o) && r.target + CENT <= o.value < MAX_INT64
  }

  /** Sorting by falling value; every sum over the list is kept. */
  method SortFalling(v: seq<Entry>) returns (w: seq<Entry>)
    requires DistinctCoins(v)
    ensures DistinctCoins(w) && |w| == |v| && AllCoins(w) == AllCoins(v)
    ensures forall i, j :: 0 <= i < j < |w| ==> w[i].value >= w[j].value
    ensures forall sel :: SumIn(w, sel) == SumIn(v, sel)
    ensures Total(w) == Total(v)
  {
    hide SumIn, Total;
    w := [];
    StartEmpty(v);
    for k := 0 to |v|
      invariant DistinctCoins(w) && |w| == k && AllCoins(w) == AllCoins(v[..k])
      invariant Falling(w)
      invariant forall sel :: SumIn(w, sel) == SumIn(v[..k], sel)
      invariant Total(w) == Total(v[..k])
    {
      var i := |w|;
      while i > 0 && w[i - 1].value < v[k].value
        invariant 0 <= i <= |w|
        invariant i < |w| ==> w[i].value < v[k].value
      {
        i := i - 1;
      }
      InsertStep(v, k, w, i);
      w := Inserted(w, i, v[k]);
    }
    assert v[..|v|] == v;
  }

  predicate Falling(w: seq<Entry>) {
    forall i, j :: 0 <= i < j < |w| ==> w[i].value >= w[j].value
  }

  function Inserted(w: seq<Entry>, i: nat, e: Entry): seq<Entry>
    requires i <= |w|
  {
    w[..i] + [e] + w[i..]
  }

  lemma StartEmpty(v: seq<Entry>)
    ensures forall sel :: SumIn([], sel) == SumIn(v[..0], sel)
    ensures Total([]) == Total(v[..0]) && AllCoins([]) == AllCoins(v[..0])
  {
  }

  lemma InsertStep(v: seq<Entry>, k: nat, w: seq<Entry>, i: nat)
    requires DistinctCoins(v) && k < |v| && DistinctCoins(w) && |w| == k && AllCoins(w) == AllCoins(v[..k]) && Falling(w)
    requires forall sel :: SumIn(w, sel) == SumIn(v[..k], sel)
    requires Total(w) == Total(v[..k])
    requires i <= |w| && (i > 0 ==> w[i - 1].value >= v[k].value) && (i < |w| ==> w[i].value < v[k].value)
    ensures var w' := Inserted(w, i, v[k]);
            && DistinctCoins(w') && AllCoins(w') == AllCoins(v[..k + 1]) && Falling(w')
            && (forall sel :: SumIn(w', sel) == SumIn(v[..k + 1], sel))
            && Total(w') == Total(v[..k + 1])
  {
    hide SumIn, Total, Falling;
    InsertKeepsOrder(w, i, v[k]);
    InsertKeepsCoins(v, k, w, i);
    forall sel
      ensures SumIn(Inserted(w, i, v[k]), sel) == SumIn(v[..k + 1], sel)
    {
      InsertKeepsSum(v, k, w, i, sel);
    }
    InsertKeepsSum(v, k, w, i, {});
  }

  lemma InsertKeepsOrder(w: seq<Entry>, i: nat, e: Entry)
    requires Falling(w) && i <= |w| && (i > 0 ==> w[i - 1].value >= e.value) && (i < |w| ==> w[i].value < e.value)
    ensures Falling(Inserted(w, i, e))
  {
    var w' := Inserted(w, i, e);
    forall a, b | 0 <= a < b < |w'|
      ensures w'[a].value >= w'[b].value
    {
      assert a < i - 1 ==> w[a].value >= w[i - 1].value;
      assert i < b - 1 ==> w[i].value >= w[b - 1].value;
    }
  }

  lemma InsertKeepsCoins(v: seq<Entry>, k: nat, w: seq<Entry>, i: nat)
    requires DistinctCoins(v) && k < |v| && DistinctCoins(w) && AllCoins(w) == AllCoins(v[..k]) && i <= |w|
    ensures DistinctCoins(Inserted(w, i, v[k])) && AllCoins(Inserted(w, i, v[k])) == AllCoins(v[..k + 1])
  {
    var w' := Inserted(w, i, v[k]);
    forall j | 0 <= j < |w|
      ensures w[j].coin != v[k].coin
    {
      assert w[j].coin in AllCoins(v[..k]);
    }
    forall j | 0 <= j < |w'|
      ensures w'[j] == if j < i then w[j] else if j == i then v[k] else w[j - 1]
    {
    }
    forall c
      ensures c in AllCoins(w') <==> c in AllCoins(w) + {v[k].coin}
    {
      if c in AllCoins(w) {
        var j :| 0 <= j < |w| && w[j].coin == c;
        assert w'[if j < i then j else j + 1].coin == c;
      }
      assert w'[i].coin == v[k].coin;
    }
    assert AllCoins(v[..k + 1]) == AllCoins(v[..k]) + {v[k].coin};
  }

  lemma InsertKeepsSum(v: seq<Entry>, k: nat, w: seq<Entry>, i: nat, sel: set<OutPoint>)
    requires k < |v| && i <= |w| && SumIn(w, sel) == SumIn(v[..k], sel) && Total(w) == Total(v[..k])
    ensures SumIn(Inserted(w, i, v[k]), sel) == SumIn(v[..k + 1], sel)
    ensures Total(Inserted(w, i, v[k])) == Total(v[..k + 1])
  {
    hide SumIn, Total;
    var a, e, b := w[..i], [v[k]], w[i..];
    assert w == a + b && v[..k + 1] == v[..k] + e;
    SumConcat(a + e, b, sel);
    SumConcat(a, e, sel);
    SumConcat(a, b, sel);
    SumConcat(v[..k], e, sel);
    TotalConcat(a + e, b);
    TotalConcat(a, e);
    TotalConcat(a, b);
    TotalConcat(v[..k], e);
  }

  /** Splits the coins; stops at the first one worth exactly the target. */
  method Split(r: Rules, outputs: seq<Output>) returns (exact: Option<Output>, lower: seq<Entry>, total: nat, bigger: Option<Output>)
    ensures exact.Some? ==> exact.value in outputs && Eligible(r, exact.value) && exact.value.value == r.target
    ensures exact.None? ==> forall o :: o in outputs && Eligible(r, o) ==> o.value != r.target
    ensures exact.None? ==> lower == Lower(r, outputs) && total == Total(lower)
    ensures exact.None? ==> IsLeastBigger(r, outputs, bigger)
  {
    exact, lower, total, bigger := None, [], 0, None;
    for k := 0 to |outputs|
      invariant lower == Lower(r, outputs[..k]) && total == Total(lower)
      invariant forall j :: 0 <= j < k && Eligible(r, outputs[j]) ==> outputs[j].value != r.target
      invariant IsLeastBigger(r, outputs[..k], bigger)
    {
      var o := outputs[k];
      LowerSnoc(r, outputs[..k], o);
      assert outputs[..k + 1] == outputs[..k] + [o];
      if o.depth < (if o.fromMe then r.confMine else r.confTheirs) {
        continue;
      }
      if o.time > r.spendTime {
        continue;
      }
      if o.value == r.target {
        return Some(o), lower, total, bigger;
      } else if o.value < r.target + CENT {
        TotalConcat(lower, [AsEntry(o)]);
        assert [AsEntry(o)][1..] == [];
        lower := lower + [AsEntry(o)];
        total := total + o.value;
      } else if o.value < (if bigger.Some? then bigger.value.value else MAX_INT64) {
        bigger := Some(o);
      }
    }
    assert outputs[..|outputs|] == outputs;
  }

  /** The least eligible coin of at least the target plus one cent, if there is one. */
  predicate IsLeastBigger(r: Rules, outputs: seq<Output>, bigger: Option<Output>) {
    && (bigger.None? ==> forall o :: o in outputs ==> !IsBigger(r, o))
    && (bigger.Some? ==> bigger.value in outputs && IsBigger(r, bigger.value))
    && (bigger.Some? ==> forall o :: o in outputs && IsBigger(r, o) ==> bigger.value.value <= o.value)
  }

  ghost predicate ExactCoin(r: Rules, outputs: seq<Output>, sel: set<OutPoint>) {
    exists o :: o in outputs && Eligible(r, o) && o.value == r.target && sel == {o.coin}
  }

  /** What a selection promises: the coins are eligible and add up; it costs no more than any single bigger
      coin; and change below one cent is left only when the eligible coins have no better. */
  ghost predicate Selected(r: Rules, outputs: seq<Output>, sel: set<OutPoint>, sum: nat) {
    && PaysWith(outputs, r, sel, sum)
    && (forall o :: o in outputs && IsBigger(r, o) ==> sum <= o.value)
    && ((exists o :: o in outputs && Eligible(r, o) && o.value == r.target) ==> ExactCoin(r, outputs, sel) && sum == r.target)
    && (Total(Lower(r, outputs)) == r.target ==> sum == r.target)
    && (sum == r.target || sum >= r.target + CENT ||
        ((forall o :: o in outputs ==> !IsBigger(r, o)) && Total(Lower(r, outputs)) < r.target + CENT))
  }

  /** Between the subset found and the least bigger coin: the coin, if the subset would leave change below a cent or is
      worth no less. */
  ghost predicate BetterOf(r: Rules, outputs: seq<Output>, sel: set<OutPoint>, sum: nat, sel': set<OutPoint>, sum': nat) {
    if exists o :: o in outputs && IsBigger(r, o) && ((sum != r.target && sum < r.target + CENT) || o.value <= sum)
    then exists o :: o in outputs && sel' == {o.coin} && sum' == o.value && IsLeastBigger(r, outputs, Some(o))
    else sel' == sel && sum' == sum
  }

  /** SelectCoinsMinConf. It fails exactly when the lower coins fall short and there is no bigger one. */
  method SelectCoinsMinConf(r: Rules, outputs: seq<Output>, luck: nat -> Luck) returns (res: Option<(set<OutPoint>, nat)>)
    requires DistinctOutputs(outputs)
    ensures res.None? <==> Total(Lower(r, outputs)) < r.target && forall o :: o in outputs ==> !IsBigger(r, o)
    ensures res.Some? ==> Selected(r, outputs, res.value.0, res.value.1)
    ensures res.Some? && Total(Lower(r, outputs)) > r.target && (forall o :: o in outputs && Eligible(r, o) ==> o.value != r.target) ==>
      exists sel, sum :: Sought(Lower(r, outputs), r.target, luck, sel, sum) && BetterOf(r, outputs, sel, sum, res.value.0, res.value.1)
  {
    hide SumIn, Total, Lower, PaysWith, FlaggedCoins;
    var exact, lower, total, bigger := Split(r, outputs);
    if exact.Some? {
      ExactPays(r, outputs, exact.value);
      assert ExactCoin(r, outputs, {exact.value.coin});
      return Some(({exact.value.coin}, exact.value.value));
    }
    if total == r.target {
      EverythingPays(lower, r.target);
      LowerPays(r, outputs, AllCoins(lower), total);
      return Some((AllCoins(lower), total));
    }
    if total < r.target {
      if bigger.None? {
        return None;
      }
      BiggerPays(r, outputs, bigger.value);
      return Some(({bigger.value.coin}, bigger.value.value));
    }
    var sel, sum := SearchSubset(r, outputs, lower, total, luck);
    if bigger.Some? && ((sum != r.target && sum < r.target + CENT) || bigger.value.value <= sum) {
      BiggerPays(r, outputs, bigger.value);
      return Some(({bigger.value.coin}, bigger.value.value));
    }
    res := Some((sel, sum));
  }

  lemma FlaggedFacts(v: seq<Entry>, flags: seq<bool>)
    requires |v| == |flags| && DistinctCoins(v)
    ensures FlaggedCoins(v, flags) <= AllCoins(v)
    ensures forall i :: 0 <= i < |v| ==> (v[i].coin in FlaggedCoins(v, flags) <==> flags[i])
  {
  }

  /** What the two searches come to: on the coins by falling value, the least total any repetition of the first search
      reaches, or of the second, one cent higher, if the first was not exact and there is enough for it. */
  ghost predicate Sought(lower: seq<Entry>, target: nat, luck: nat -> Luck, sel: set<OutPoint>, sum: nat) {
    exists v: seq<Entry>, best: seq<bool>, sum1: nat :: SoughtIn(lower, target, luck, v, best, sum1, sel, sum)
  }

  ghost predicate SoughtIn(lower: seq<Entry>, target: nat, luck: nat -> Luck, v: seq<Entry>, best: seq<bool>, sum1: nat,
                           sel: set<OutPoint>, sum: nat)
  {
    && Falling(v) && DistinctCoins(v) && |v| == |lower| && AllCoins(v) == AllCoins(lower) && |best| == |v|
    && sel == FlaggedCoins(v, best) && sum == Flagged(v, best)
    && (exists best1: seq<bool> :: |best1| == |v| && sum1 == Flagged(v, best1) && LeastFound(v, target, luck(0), 1000, best1, sum1) &&
          (sum1 == target || Total(lower) < target + CENT ==> best == best1))
    && (sum1 != target && Total(lower) >= target + CENT ==> LeastFound(v, target + CENT, luck(1), 1000, best, sum))
  }

  /** The two searches, for the target and for the target plus one cent. */
  method SearchSubset(r: Rules, outputs: seq<Output>, lower: seq<Entry>, total: nat, luck: nat -> Luck) returns (sel: set<OutPoint>, sum: nat)
    requires DistinctOutputs(outputs) && lower == Lower(r, outputs) && total == Total(lower) && total > r.target
    ensures PaysWith(outputs, r, sel, sum) && r.target <= sum <= total
    ensures sum == r.target || sum >= r.target + CENT || total < r.target + CENT
    ensures Sought(lower, r.target, luck, sel, sum)
  {
    hide SumIn, Total, Lower, PaysWith, Flagged, LeastFound, FlaggedCoins;
    LowerCoins(r, outputs);
    var v := SortFalling(lower);
    var best;
    best, sum := ApproximateBestSubset(v, total, r.target, 1000, luck(0));
    ghost var sum1 := sum;
    if sum != r.target && total >= r.target + CENT {
      best, sum := ApproximateBestSubset(v, total, r.target + CENT, 1000, luck(1));
    }
    sel := FlaggedCoins(v, best);
    FlaggedFacts(v, best);
    FlaggedIsSum(v, best, sel);
    assert sel <= AllCoins(lower);
    assert SoughtIn(lower, r.target, luck, v, best, sum1, sel, sum);
    LowerPays(r, outputs, sel, sum);
  }

  lemma LowerPays(r: Rules, outputs: seq<Output>, sel: set<OutPoint>, sum: nat)
    requires DistinctOutputs(outputs) && sel <= AllCoins(Lower(r, outputs))
    requires sum == SumIn(Lower(r, outputs), sel) && sum >= r.target
    ensures PaysWith(outputs, r, sel, sum)
  {
    var lower := Lower(r, outputs);
    LowerCoins(r, outputs);
    forall c | c in sel
      ensures exists o :: o in outputs && o.coin == c && IsLower(r, o)
    {
      var i :| 0 <= i < |lower| && lower[i].coin == c;
      assert lower[i] in lower;
      var o :| o in outputs && IsLower(r, o) && lower[i] == AsEntry(o);
    }
    forall o | o in outputs && o.coin in sel
      ensures IsLower(r, o)
    {
      var o' :| o' in outputs && o'.coin == o.coin && IsLower(r, o');
      var i :| 0 <= i < |outputs| && outputs[i] == o;
      var j :| 0 <= j < |outputs| && outputs[j] == o';
    }
    LowerSum(r, outputs, sel);
  }

  lemma BiggerPays(r: Rules, outputs: seq<Output>, o: Output)
    requires DistinctOutputs(outputs) && o in outputs && IsBigger(r, o)
    ensures PaysWith(outputs, r, {o.coin}, o.value)
  {
    OneCoin(outputs, o);
  }

  /** A coin worth exactly the target pays, and the lower coins reach the target. */
  lemma ExactPays(r: Rules, outputs: seq<Output>, o: Output)
    requires DistinctOutputs(outputs) && o in outputs && Eligible(r, o) && o.value == r.target
    ensures PaysWith(outputs, r, {o.coin}, o.value) && Total(Lower(r, outputs)) >= r.target
  {
    OneCoin(outputs, o);
    LowerHolds(r, outputs, o);
  }
}
