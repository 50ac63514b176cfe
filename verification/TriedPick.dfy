/** How the address manager picks the tried entry to evict: it shuffles the front of the bucket and remembers the
    entry that succeeded longest ago, but the place it returns is the one that entry had before its swap. */
module TriedPick {
  import opened AddrTables

  /** The shuffled bucket, where the chosen entry is now, and the place that is returned. */
  datatype Inspection = Inspection(bucket: seq<int>, step: int, pos: int)

  /** GetRandInt(n - i) + i, for a raw random number. */
  function Draw(rnd: nat -> nat, i: nat, n: nat): (place: nat)
    requires i < n
    ensures i <= place < n
  {
    i + rnd(i) % (n - i)
  }

  function Swapped(b: seq<int>, i: nat, j: nat): seq<int>
    requires i < |b| && j < |b|
  {
    b[j := b[i]][i := b[j]]
  }

  ghost predicate Known(info: Infos, bucket: seq<int>) {
    forall i :: 0 <= i < |bucket| ==> bucket[i] in info
  }

  /** What SelectTried has after i rounds. */
  ghost function Inspect(info: Infos, bucket: seq<int>, rnd: nat -> nat, i: nat): (r: Inspection)
    requires i <= |bucket| && Known(info, bucket)
    ensures |r.bucket| == |bucket| && Known(info, r.bucket) && -1 <= r.step < i && (i > 0 ==> r.step >= 0)
    ensures i > 0 ==> r.step <= r.pos < |bucket| && r.pos == Draw(rnd, r.step, |bucket|)
    ensures i == 0 ==> r.pos == -1
  {
    if i == 0 then Inspection(bucket, -1, -1)
    else
      var before, place := Inspect(info, bucket, rnd, i - 1), Draw(rnd, i - 1, |bucket|);
      var b := Swapped(before.bucket, i - 1, place);
      if before.step == -1 || info[b[i - 1]].lastSuccess < info[before.bucket[before.step]].lastSuccess
      then Inspection(b, i - 1, place) else Inspection(b, before.step, before.pos)
  }

  lemma InspectNothing(info: Infos, bucket: seq<int>, rnd: nat -> nat)
    requires Known(info, bucket)
    ensures Inspect(info, bucket, rnd, 0) == Inspection(bucket, -1, -1)
  {
  }

  /** One round of the inspection, on the entries themselves. */
  lemma InspectNext(info: Infos, bucket: seq<int>, rnd: nat -> nat, i: nat)
    requires i < |bucket| && Known(info, bucket)
    ensures var before, after, place := Inspect(info, bucket, rnd, i), Inspect(info, bucket, rnd, i + 1), Draw(rnd, i, |bucket|);
            var temp := before.bucket[place];
            && temp in info && (before.step >= 0 ==> before.bucket[before.step] in info)
            && after.bucket == before.bucket[place := before.bucket[i]][i := temp] && after.bucket[i] == temp
            && (if before.step == -1 || info[temp].lastSuccess < info[before.bucket[before.step]].lastSuccess
                then after.step == i && after.pos == place
                else after.step == before.step && after.pos == before.pos && after.bucket[after.step] == before.bucket[before.step])
            && (before.step == -1 <==> before.pos == -1)
  {
  }

  /** An inspection looks only at the times of the last success. */
  lemma {:induction false} SameTimes(info: Infos, info': Infos, bucket: seq<int>, rnd: nat -> nat, i: nat)
    requires info.Keys == info'.Keys && (forall id :: id in info ==> info'[id].lastSuccess == info[id].lastSuccess)
    requires i <= |bucket| && Known(info, bucket)
    ensures Known(info', bucket) && Inspect(info', bucket, rnd, i) == Inspect(info, bucket, rnd, i)
  {
    hide Inspect, Draw;
    if i > 0 {
      SameTimes(info, info', bucket, rnd, i - 1);
      InspectNext(info, bucket, rnd, i - 1);
      InspectNext(info', bucket, rnd, i - 1);
    } else {
      InspectNothing(info, bucket, rnd);
      InspectNothing(info', bucket, rnd);
    }
  }

  lemma SwapFacts(b: seq<int>, i: nat, j: nat)
    requires i < |b| && j < |b|
    ensures multiset(Swapped(b, i, j)) == multiset(b)
    ensures Distinct(b) ==> Distinct(Swapped(b, i, j))
    ensures forall k :: 0 <= k < |b| && k != i && k != j ==> Swapped(b, i, j)[k] == b[k]
  {
  }

  /** The bucket is permuted. */
  lemma {:induction false} InspectPermutes(info: Infos, bucket: seq<int>, rnd: nat -> nat, i: nat)
    requires i <= |bucket| && Known(info, bucket)
    ensures var r := Inspect(info, bucket, rnd, i);
            multiset(r.bucket) == multiset(bucket) && (Distinct(bucket) ==> Distinct(r.bucket))
  {
    hide Swapped, Draw, Distinct;
    if i > 0 {
      InspectPermutes(info, bucket, rnd, i - 1);
      SwapFacts(Inspect(info, bucket, rnd, i - 1).bucket, i - 1, Draw(rnd, i - 1, |bucket|));
    }
  }

  /** The first of those of the first i entries that succeeded longest ago. */
  ghost predicate FirstLeast(info: Infos, b: seq<int>, i: nat, s: int)
    requires i <= |b| && Known(info, b)
  {
    && 0 <= s < i
    && (forall j :: 0 <= j < i ==> info[b[s]].lastSuccess <= info[b[j]].lastSuccess)
    && (forall j :: 0 <= j < s ==> info[b[s]].lastSuccess < info[b[j]].lastSuccess)
  }

  /** The chosen entry is the first of the inspected ones that succeeded longest ago. */
  lemma {:induction false} InspectFinds(info: Infos, bucket: seq<int>, rnd: nat -> nat, i: nat)
    requires 0 < i <= |bucket| && Known(info, bucket)
    ensures var r := Inspect(info, bucket, rnd, i); FirstLeast(info, r.bucket, i, r.step)
  {
    hide Inspect;
    if i > 1 {
      InspectFinds(info, bucket, rnd, i - 1);
    }
    InspectNext(info, bucket, rnd, i - 1);
    var before, r := Inspect(info, bucket, rnd, i - 1), Inspect(info, bucket, rnd, i);
    forall j | 0 <= j < i - 1
      ensures r.bucket[j] == before.bucket[j]
    {
    }
  }

  /** The front of the bucket after i swaps: draws alone decide it. */
  function Shuffled(bucket: seq<int>, rnd: nat -> nat, i: nat): (b: seq<int>)
    requires i <= |bucket|
    ensures |b| == |bucket|
  {
    if i == 0 then bucket else Swapped(Shuffled(bucket, rnd, i - 1), i - 1, Draw(rnd, i - 1, |bucket|))
  }

  lemma {:induction false} InspectShuffles(info: Infos, bucket: seq<int>, rnd: nat -> nat, i: nat)
    requires i <= |bucket| && Known(info, bucket)
    ensures Inspect(info, bucket, rnd, i).bucket == Shuffled(bucket, rnd, i)
  {
    hide Swapped, Draw;
    if i > 0 {
      InspectShuffles(info, bucket, rnd, i - 1);
    }
  }

  /** The returned place holds the entry that succeeded longest ago exactly if that was drawn at its own place. */
  lemma PickIsChosen(info: Infos, bucket: seq<int>, rnd: nat -> nat, i: nat, s: nat)
    requires 0 < i <= |bucket| && Known(info, bucket) && Distinct(bucket)
    requires Known(info, Shuffled(bucket, rnd, i)) && FirstLeast(info, Shuffled(bucket, rnd, i), i, s)
    ensures var b := Shuffled(bucket, rnd, i);
            b[Inspect(info, bucket, rnd, i).pos] == b[s] <==> rnd(s) % (|bucket| - s) == 0
  {
    hide Inspect, Shuffled;
    InspectPermutes(info, bucket, rnd, i);
    InspectShuffles(info, bucket, rnd, i);
    InspectFinds(info, bucket, rnd, i);
    FirstIsOne(info, Shuffled(bucket, rnd, i), i, s, Inspect(info, bucket, rnd, i).step);
  }

  lemma FirstIsOne(info: Infos, b: seq<int>, i: nat, s: int, t: int)
    requires i <= |b| && Known(info, b) && FirstLeast(info, b, i, s) && FirstLeast(info, b, i, t)
    ensures s == t
  {
    assert info[b[s]].lastSuccess <= info[b[t]].lastSuccess && info[b[t]].lastSuccess <= info[b[s]].lastSuccess;
  }

  function Aged(lastSuccess: int): AddrInfo {
    AddrInfo(Service(0, 1), 0, {}, 0, 0, lastSuccess, 0, 0, true, 0)
  }

  /** Of two entries, 8 succeeded longer ago; both draws name the second place; the place returned holds 7. */
  lemma PickMisses()
    ensures var info := map[7 := Aged(20), 8 := Aged(10)];
            && Known(info, [7, 8])
            && Inspect(info, [7, 8], _ => 1, 2) == Inspection([8, 7], 0, 1)
  {
    var info, rnd := map[7 := Aged(20), 8 := Aged(10)], (_: nat) => 1;
    assert Inspect(info, [7, 8], rnd, 0) == Inspection([7, 8], -1, -1);
    assert Draw(rnd, 0, 2) == 1 && Draw(rnd, 1, 2) == 1;
    assert Swapped([7, 8], 0, 1) == [8, 7] && Swapped([8, 7], 1, 1) == [8, 7];
    assert Inspect(info, [7, 8], rnd, 1) == Inspection([8, 7], 0, 1);
  }
}
