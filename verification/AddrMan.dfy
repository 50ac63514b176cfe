/** The address manager: five redundant tables kept consistent by every operation. */
module AddrMan {
  import opened Primitives
  import opened AddrTables
  import opened TriedPick

  const ENTRIES_INSPECTED := 8
  const HORIZON_DAYS := 30
  const RETRIES := 3
  const MAX_FAILURES := 10
  const MIN_FAIL_DAYS := 7
  const GETADDR_MAX_PCT := 23
  const GETADDR_MAX := 2500
  const DAY := 24 * 60 * 60

  /** Whether the statistics of an entry are bad enough to delete it. */
  predicate IsTerrible(e: AddrInfo, now: int) {
    if e.lastTry != 0 && e.lastTry >= now - 60 then false
    else if e.time > now + 10 * 60 then true
    else if e.time == 0 || now - e.time > HORIZON_DAYS * DAY then true
    else if e.lastSuccess == 0 && e.attempts >= RETRIES then true
    else now - e.lastSuccess > MIN_FAIL_DAYS * DAY && e.attempts >= MAX_FAILURES
  }

  /** The reasons, in any order; none of them touches an entry tried in the last minute. */
  lemma TerribleMeans(e: AddrInfo, now: int)
    ensures IsTerrible(e, now) <==>
      && (e.lastTry == 0 || now - e.lastTry > 60)
      && (|| e.time - now > 600                                        // from the future
          || e.time == 0 || now - e.time > 2_592_000                   // not seen for thirty days
          || (e.attempts >= 3 && e.lastSuccess == 0)                   // three attempts, never a success
          || (e.attempts >= 10 && now - e.lastSuccess > 604_800))      // ten failures in a week
  {
  }

  /** An entry that was just tried, or just succeeded, stays for a minute at least. */
  lemma FreshIsNotTerrible(e: AddrInfo, time: int, now: int)
    requires time != 0 && time <= now <= time + 60
    ensures !IsTerrible(Succeeded(e, time), now) && !IsTerrible(e.(lastTry := time, attempts := e.attempts + 1), now)
  {
  }

  function Max(a: int, b: int): int {
    if a < b then b else a
  }

  /** The ids of a bucket in increasing order, as std::set iterates them. */
  method InOrder(s: set<int>) returns (q: seq<int>)
    ensures forall id :: id in q <==> id in s
    ensures Rising(q) && |q| == |s|
  {
    hide Rising, Put;
    EmptyRises();
    q := [];
    var rest := s;
    while exists id :: id in rest
      invariant rest <= s && |q| + |rest| == |s|
      invariant forall id :: id in q <==> id in s && id !in rest
      invariant Rising(q)
      decreases |rest|
    {
      var id :| id in rest;
      var k := 0;
      while k < |q| && q[k] < id
        invariant 0 <= k <= |q| && (k > 0 ==> q[k - 1] < id)
      {
        k := k + 1;
      }
      if k < |q| {
        assert q[k] in q;
      }
      PutRises(q, k, id);
      PutAdds(q, k, id);
      q := Put(q, k, id);
      rest := rest - {id};
    }
    if |rest| > 0 {
      NoneLeft(rest);
    }
  }

  predicate Rising(q: seq<int>) {
    forall i, j :: 0 <= i < j < |q| ==> q[i] < q[j]
  }

  lemma EmptyRises()
    ensures Rising([])
  {
  }

  function Put(q: seq<int>, k: nat, id: int): (r: seq<int>)
    requires k <= |q|
    ensures |r| == |q| + 1 && forall i :: 0 <= i <= |q| ==> r[i] == if i < k then q[i] else if i == k then id else q[i - 1]
  {
    q[..k] + [id] + q[k..]
  }

  lemma PutRises(q: seq<int>, k: nat, id: int)
    requires Rising(q) && k <= |q| && (k > 0 ==> q[k - 1] < id) && (k < |q| ==> id < q[k])
    ensures Rising(Put(q, k, id))
  {
    hide Put;
    var r := Put(q, k, id);
    forall i, j | 0 <= i < j < |r|
      ensures r[i] < r[j]
    {
      assert r[i] == (if i < k then q[i] else if i == k then id else q[i - 1]);
      assert r[j] == (if j < k then q[j] else if j == k then id else q[j - 1]);
      assert i < k - 1 ==> q[i] < q[k - 1];
      assert k < j - 1 ==> q[k] < q[j - 1];
    }
  }

  lemma PutAdds(q: seq<int>, k: nat, id: int)
    requires k <= |q|
    ensures forall x :: x in Put(q, k, id) <==> x == id || x in q
  {
    assert q == q[..k] + q[k..];
  }

  lemma NoneLeft(s: set<int>)
    requires !exists id :: id in s
    ensures |s| == 0
  {
    assert s == {} by {
      assert forall id :: id in s ==> false;
    }
  }

  /** The same entry, wherever it is in vRandom. */
  predicate UpToPlace(a: AddrInfo, b: AddrInfo) {
    a.(randomPos := 0) == b.(randomPos := 0)
  }

  /** The time of a known address heard of again: moved only now and then. */
  function UpdatedTime(e: AddrInfo, time: int, penalty: int, now: int): int {
    var interval := if now - time < DAY then 60 * 60 else DAY;
    if time != 0 && (e.time == 0 || e.time < time - interval - penalty) then Max(0, time - penalty) else e.time
  }

  /** A known address may gain a reference: with news, while new, below the limit, and with a chance that halves
      with every reference it has. */
  predicate Gains(e: AddrInfo, time: int, luck: nat) {
    && time != 0 && (e.time == 0 || e.time < time)
    && !e.inTried && 0 <= e.refCount < NEW_BUCKETS_PER_ADDRESS && luck % Pow2(e.refCount) == 0
  }

  /** The time of an entry never goes back, and it moves only by more than an hour, or, for an address not seen for a day, by
      more than a day. */
  lemma TimeMovesOn(e: AddrInfo, time: int, penalty: int, now: int)
    ensures var after, least := UpdatedTime(e, time, penalty, now), if now - time < 86_400 then 3600 else 86_400;
            if time != 0 && (e.time == 0 || time - penalty > e.time + least) then after == if time > penalty then time - penalty else 0
            else after == e.time
    ensures e.time > 0 ==> UpdatedTime(e, time, penalty, now) >= e.time
  {
  }

  /** An entry with n references that has news gains another for one in 2^n draws, and none once it has eight. */
  lemma GainChance(e: AddrInfo, time: int, k: nat, j: nat)
    requires e.refCount >= 0 && j < Pow2(e.refCount)
    ensures Gains(e, time, k * Pow2(e.refCount) + j) <==>
            j == 0 && !e.inTried && e.refCount < 8 && time != 0 && (e.time == 0 || time > e.time)
  {
    hide Pow2;
    RemainderOf(k, j, Pow2(e.refCount));
  }

  lemma RemainderOf(k: nat, j: nat, d: nat)
    requires j < d
    ensures (k * d + j) % d == j
  {
    var n := k * d + j;
    assert n == d * (n / d) + n % d;
    if n / d > k {
      MulMono(k + 1, n / d, d);
    } else if n / d < k {
      MulMono(n / d + 1, k, d);
    }
  }

  /** A known address heard of again: more services, perhaps a later time. */
  function Refreshed(e: AddrInfo, services: set<nat>, time: int, penalty: int, now: int): AddrInfo {
    e.(services := e.services + services, time := UpdatedTime(e, time, penalty, now))
  }

  /** A new address: penalised time, one reference. */
  function FreshEntry(service: Service, services: set<nat>, time: int, source: NetAddr, penalty: int, place: int): AddrInfo {
    AddrInfo(service, source, services, Max(0, time - penalty), 0, 0, 0, 1, false, place)
  }

  /** Every entry kept its role; only places in vRandom moved. */
  ghost predicate SameButPlaces(a: Infos, b: Infos) {
    a.Keys == b.Keys && forall id :: id in a ==> a[id] == b[id].(randomPos := a[id].randomPos)
  }

  lemma PlacesKeepTables(a: Infos, b: Infos, news: seq<set<int>>, x: int, tried: seq<seq<int>>, home: Service -> nat)
    requires SameButPlaces(a, b)
    ensures NewOk(a, news, x) ==> NewOk(b, news, x)
    ensures TriedOk(a, tried, home) ==> TriedOk(b, tried, home)
    ensures NewIds(b) == NewIds(a) && TriedIds(b) == TriedIds(a)
  {
    assert forall i :: i in a ==> b[i].inTried == a[i].inTried;
    if NewOk(a, news, x) {
      forall k | 0 <= k < |news| ensures BucketOk(b, news[k]) { assert BucketOk(a, news[k]); }
      forall i | i in b && !b[i].inTried ensures RefsOk(b, news, x, i) { assert RefsOk(a, news, x, i); }
    }
    if TriedOk(a, tried, home) {
      forall i | i in b && b[i].inTried ensures TriedHome(b, tried, home, i) { assert TriedHome(a, tried, home, i); }
    }
  }

  lemma TriedKnown(info: Infos, tried: seq<seq<int>>, home: Service -> nat, k: nat, i: nat)
    requires TriedOk(info, tried, home) && k < |tried| && i < |tried[k]|
    ensures tried[k][i] in info && info[tried[k][i]].inTried
  {
    var id := tried[k][i];
    assert id in tried[k];
  }

  lemma TriedSize(info: Infos, tried: seq<seq<int>>, home: Service -> nat)
    requires TriedOk(info, tried, home)
    ensures |tried| == TRIED_BUCKET_COUNT && forall k :: 0 <= k < |tried| ==> |tried[k]| <= TRIED_BUCKET_SIZE
  {
  }

  lemma NewSize(info: Infos, news: seq<set<int>>, x: int)
    requires NewOk(info, news, x)
    ensures |news| == NEW_BUCKET_COUNT && forall b :: 0 <= b < |news| ==> |news[b]| <= NEW_BUCKET_SIZE
  {
    forall b | 0 <= b < |news| ensures |news[b]| <= NEW_BUCKET_SIZE { assert BucketOk(info, news[b]); }
  }

  lemma NewRefs(info: Infos, news: seq<set<int>>, x: int, id: int)
    requires NewOk(info, news, x) && id in info && !info[id].inTried && id != x
    ensures info[id].refCount == Count(news, id) && 1 <= info[id].refCount <= NEW_BUCKETS_PER_ADDRESS
  {
    assert RefsOk(info, news, x, id);
  }

  lemma IdsNatural(info: Infos, addr: map<NetAddr, int>, random: seq<int>, nextId: int)
    requires IndexOk(info, addr, random, nextId)
    ensures -1 !in info
  {
  }

  /** The oldest of the ids at the places drawn; of several, the first. */
  method OldestOfFour(order: seq<int>, info: Infos, drawn: seq<nat>) returns (oldest: int)
    requires drawn != [] && forall k :: 0 <= k < |drawn| ==> drawn[k] < |order|
    requires forall i :: 0 <= i < |order| ==> order[i] in info
    ensures exists place: nat :: FirstOldest(info, order, drawn, place, |order|) && oldest == order[place]
  {
    var chosen: Option<nat> := None;
    for i := 0 to |order|
      invariant chosen.None? ==> forall k :: 0 <= k < |drawn| ==> drawn[k] >= i
      invariant chosen.Some? ==> FirstOldest(info, order, drawn, chosen.value, i)
    {
      if i in drawn {
        if chosen.None? || info[order[i]].time < info[order[chosen.value]].time {
          chosen := Some(i);
        }
      }
    }
    assert drawn[0] < |order|;
    oldest := order[chosen.value];
  }

  /** Of the places drawn below `end`, this one holds an oldest entry, and those before it younger ones. */
  ghost predicate FirstOldest(info: Infos, order: seq<int>, drawn: seq<nat>, place: nat, end: nat)
    requires forall i :: 0 <= i < |order| ==> order[i] in info
    requires forall k :: 0 <= k < |drawn| ==> drawn[k] < |order|
  {
    && place in drawn && place < end && place < |order|
    && (forall k :: 0 <= k < |drawn| && drawn[k] < end ==> info[order[place]].time <= info[order[drawn[k]]].time)
    && (forall k :: 0 <= k < |drawn| && drawn[k] < place ==> info[order[place]].time < info[order[drawn[k]]].time)
  }

  /** Four calls of GetRandInt(n), for raw random numbers. */
  function FourPlaces(rnd: nat -> nat, n: nat): (drawn: seq<nat>)
    requires n > 0
    ensures |drawn| == 4 && forall k :: 0 <= k < 4 ==> drawn[k] < n
  {
    [rnd(0) % n, rnd(1) % n, rnd(2) % n, rnd(3) % n]
  }

  ghost predicate InOrderOf(order: seq<int>, s: set<int>) {
    (forall id :: id in order <==> id in s) && Rising(order)
  }

  ghost predicate FirstTerrible(info: Infos, order: seq<int>, now: int, place: nat)
    requires forall i :: 0 <= i < |order| ==> order[i] in info
  {
    place < |order| && IsTerrible(info[order[place]], now) && forall j :: 0 <= j < place ==> !IsTerrible(info[order[j]], now)
  }

  /** Which entry of a full bucket goes: the first terrible one (0), or the oldest of the four drawn (1). */
  ghost predicate Chooses(info: Infos, order: seq<int>, now: int, rnd: nat -> nat, r: int, gone: int) {
    && order != [] && (forall i :: 0 <= i < |order| ==> order[i] in info) && gone in info
    && ((r == 0 && exists place: nat :: FirstTerrible(info, order, now, place) && gone == order[place])
        || (r == 1 && (forall i :: 0 <= i < |order| ==> !IsTerrible(info[order[i]], now)) &&
            exists place: nat :: FirstOldest(info, order, FourPlaces(rnd, |order|), place, |order|) && gone == order[place]))
  }

  ghost predicate Dropped(info: Infos, bucket: set<int>, now: int, rnd: nat -> nat, r: int, gone: int) {
    exists order :: InOrderOf(order, bucket) && Chooses(info, order, now, rnd, r, gone)
  }

  lemma HoldsHead(b: seq<int>)
    ensures b == [] || b[0] in b
  {
  }

  lemma InBoth(a: seq<int>, b: seq<int>, id: int)
    requires forall x :: x in a <==> x in b
    ensures id in a <==> id in b
  {
  }

  lemma TailRises(a: seq<int>)
    requires Rising(a) && a != []
    ensures Rising(a[1..])
  {
  }

  lemma HeadIsLeast(a: seq<int>, id: int)
    requires Rising(a) && id in a
    ensures a[0] <= id && (id in a[1..] <==> id != a[0])
  {
    assert a == [a[0]] + a[1..];
  }

  /** A set has one rising order. */
  lemma {:induction false} OneOrder(a: seq<int>, b: seq<int>)
    requires Rising(a) && Rising(b) && forall id :: id in a <==> id in b
    ensures a == b
  {
    hide Rising;
    if a != [] {
      TailRises(a);
      HoldsHead(a);
      InBoth(a, b, a[0]);
      HoldsHead(b);
      InBoth(a, b, b[0]);
      TailRises(b);
      HeadIsLeast(a, b[0]);
      HeadIsLeast(b, a[0]);
      forall id
        ensures id in a[1..] <==> id in b[1..]
      {
        InBoth(a, b, id);
        if id in a {
          HeadIsLeast(a, id);
          HeadIsLeast(b, id);
        }
      }
      OneOrder(a[1..], b[1..]);
      assert a == [a[0]] + a[1..] && b == [b[0]] + b[1..];
    } else if b != [] {
      InBoth(a, b, b[0]);
    }
  }

  /** An entry tried in the last minute is never dropped as terrible, and whenever one that is not terrible is dropped, none
      in the bucket is. */
  lemma DroppedFor(info: Infos, bucket: set<int>, now: int, rnd: nat -> nat, r: int, gone: int)
    requires Dropped(info, bucket, now, rnd, r, gone)
    ensures gone in bucket && gone in info && (r == 0 || r == 1)
    ensures r == 0 ==> info[gone].lastTry == 0 || now - info[gone].lastTry > 60
    ensures r == 1 ==> forall id :: id in bucket ==> id in info && !IsTerrible(info[id], now)
  {
    hide IsTerrible;
    var order :| InOrderOf(order, bucket) && Chooses(info, order, now, rnd, r, gone);
    TerribleMeans(info[gone], now);
    assert gone in order;
    forall id | id in bucket
      ensures id in info && (r == 1 ==> !IsTerrible(info[id], now))
    {
      var i :| 0 <= i < |order| && order[i] == id;
    }
  }

  /** The bucket, the time and the draws determine which entry goes. */
  lemma OneIsDropped(info: Infos, bucket: set<int>, now: int, rnd: nat -> nat, r: int, gone: int, r': int, gone': int)
    requires Dropped(info, bucket, now, rnd, r, gone) && Dropped(info, bucket, now, rnd, r', gone')
    ensures r == r' && gone == gone'
  {
    var a :| InOrderOf(a, bucket) && Chooses(info, a, now, rnd, r, gone);
    var b :| InOrderOf(b, bucket) && Chooses(info, b, now, rnd, r', gone');
    OneOrder(a, b);
    OneChoice(info, a, now, rnd, r, gone, r', gone');
  }

  lemma OneChoice(info: Infos, order: seq<int>, now: int, rnd: nat -> nat, r: int, gone: int, r': int, gone': int)
    requires Chooses(info, order, now, rnd, r, gone) && Chooses(info, order, now, rnd, r', gone')
    ensures r == r' && gone == gone'
  {
    hide IsTerrible, FourPlaces;
    if r == 0 && r' == 0 {
      var p: nat :| FirstTerrible(info, order, now, p) && gone == order[p];
      var q: nat :| FirstTerrible(info, order, now, q) && gone' == order[q];
    } else if r == 1 && r' == 1 {
      var drawn := FourPlaces(rnd, |order|);
      var p: nat :| FirstOldest(info, order, drawn, p, |order|) && gone == order[p];
      var q: nat :| FirstOldest(info, order, drawn, q, |order|) && gone' == order[q];
      OneOldest(info, order, drawn, p, q);
    }
  }

  lemma OneOldest(info: Infos, order: seq<int>, drawn: seq<nat>, p: nat, q: nat)
    requires forall i :: 0 <= i < |order| ==> order[i] in info
    requires forall k :: 0 <= k < |drawn| ==> drawn[k] < |order|
    requires FirstOldest(info, order, drawn, p, |order|) && FirstOldest(info, order, drawn, q, |order|)
    ensures p == q
  {
    var k :| 0 <= k < |drawn| && drawn[k] == p;
    var m :| 0 <= m < |drawn| && drawn[m] == q;
  }

  /** The n-th bucket of a round that begins at `start`. */
  function Rotated(start: nat, n: nat): (b: nat)
    ensures b < NEW_BUCKET_COUNT
  {
    (n + start) % NEW_BUCKET_COUNT
  }

  /** The first bucket of the round from `start` that holds the id. */
  ghost predicate FoundFrom(news: seq<set<int>>, id: int, start: nat, b: nat) {
    && |news| == NEW_BUCKET_COUNT && b < |news| && id in news[b]
    && exists n: nat :: b == Rotated(start, n) && forall m :: 0 <= m < n ==> id !in news[Rotated(start, m)]
  }

  function Succeeded(e: AddrInfo, time: int): AddrInfo {
    e.(lastSuccess := time, lastTry := time, time := time, attempts := 0)
  }

  /** Removes an id from every new bucket, counting its references down. */
  method Forget(news: seq<set<int>>, info: Infos, id: int) returns (news': seq<set<int>>, info': Infos)
    requires id in info
    ensures news' == Without(news, id)
    ensures info' == info[id := info[id].(refCount := info[id].refCount - Count(news, id))]
  {
    news', info' := news, info;
    for b := 0 to |news|
      invariant |news'| == |news| && (forall c :: 0 <= c < b ==> news'[c] == news[c] - {id}) && news'[b..] == news[b..]
      invariant info' == info[id := info[id].(refCount := info[id].refCount - Count(news[..b], id))]
    {
      assert news[..b + 1][..b] == news[..b];
      assert news'[b] == news'[b..][0] == news[b..][0] == news[b];
      if id in news'[b] {
        info' := info'[id := info'[id].(refCount := info'[id].refCount - 1)];
      }
      news' := news'[b := news'[b] - {id}];
      assert news'[b + 1..] == news[b + 1..] by {
        assert forall c :: b < c < |news| ==> news'[c] == news[b..][c - b];
      }
    }
    assert news[..|news|] == news;
  }

  lemma CountsMove(info: Infos, info': Infos, id: int)
    requires id in info && !info[id].inTried && info'.Keys == info.Keys && info'[id].inTried
    requires forall i :: i in info && i != id ==> info'[i].inTried == info[i].inTried
    ensures |NewIds(info')| == |NewIds(info)| - 1 && |TriedIds(info')| == |TriedIds(info)| + 1
  {
    var kept := NewIds(info) - {id};
    forall i | i in NewIds(info') ensures i in kept { assert i in info && i != id; }
    forall i | i in kept ensures i in NewIds(info') { }
    assert NewIds(info) == kept + {id} && NewIds(info') == kept;
    assert TriedIds(info') == TriedIds(info) + {id};
  }

  lemma CountsSwap(info: Infos, info': Infos, id: int, out: int)
    requires id in info && out in info && id != out && !info[id].inTried && info[out].inTried
    requires info'.Keys == info.Keys && info'[id].inTried && !info'[out].inTried
    requires forall i :: i in info && i != id && i != out ==> info'[i].inTried == info[i].inTried
    ensures |NewIds(info')| == |NewIds(info)| && |TriedIds(info')| == |TriedIds(info)|
  {
    var kept, known := NewIds(info) - {id}, TriedIds(info) - {out};
    assert NewIds(info) == kept + {id} && NewIds(info') == kept + {out};
    assert TriedIds(info) == known + {out} && TriedIds(info') == known + {id};
  }

  lemma RolesKept(info: Infos, id: int, e: AddrInfo)
    requires id in info && e.inTried == info[id].inTried
    ensures NewIds(info[id := e]) == NewIds(info) && TriedIds(info[id := e]) == TriedIds(info)
  {
    assert forall i :: i in info ==> info[id := e][i].inTried == info[i].inTried;
  }

  lemma CountsAdd(info: Infos, id: int, e: AddrInfo)
    requires id !in info && !e.inTried
    ensures |NewIds(info[id := e])| == |NewIds(info)| + 1 && TriedIds(info[id := e]) == TriedIds(info)
  {
    var info' := info[id := e];
    assert forall i :: i in info ==> i != id && info'[i] == info[i];
    assert NewIds(info') == NewIds(info) + {id};
  }

  lemma PlacesTrans(a: Infos, b: Infos, c: Infos)
    requires a == b || SameButPlaces(a, b)
    requires b == c || SameButPlaces(b, c)
    ensures SameButPlaces(a, c)
  {
  }

  lemma SamePlace(a: Infos, b: Infos, id: int)
    requires SameButPlaces(a, b) && (id in a || id in b)
    ensures id in a && id in b && UpToPlace(b[id], a[id])
  {
  }

  lemma PlacesTimes(a: Infos, b: Infos)
    requires SameButPlaces(a, b)
    ensures TimesOk(a) ==> TimesOk(b)
  {
  }

  lemma RandomKnown(info: Infos, addr: map<NetAddr, int>, random: seq<int>, nextId: int, i: nat)
    requires IndexOk(info, addr, random, nextId) && i < |random|
    ensures random[i] in info
  {
  }

  /** How many addresses GetAddr_ hands out. */
  function Selected(known: nat): (n: nat)
    ensures n <= known && n <= 2500 && 100 * n <= 23 * known && (n == 2500 || 23 * known < 100 * (n + 1))
  {
    var n := GETADDR_MAX_PCT * known / 100;
    if n > GETADDR_MAX then GETADDR_MAX else n
  }

  lemma TriedRefs(info: Infos, tried: seq<seq<int>>, home: Service -> nat, id: int)
    requires TriedOk(info, tried, home) && id in info
    ensures info[id].inTried ==> info[id].refCount == 0
  {
    if info[id].inTried {
      assert TriedHome(info, tried, home, id);
    }
  }

  lemma BucketKnown(settled: Infos, tried: seq<seq<int>>, home: Service -> nat, k: nat, info: Infos)
    requires TriedOk(settled, tried, home) && k < |tried| && settled.Keys <= info.Keys
    ensures Known(info, tried[k]) && Known(settled, tried[k])
  {
    forall i | 0 <= i < |tried[k]| ensures tried[k][i] in settled { TriedKnown(settled, tried, home, k, i); }
  }

  /** Some entry has exactly this address and port. */
  ghost predicate IsKnown(info: Infos, service: Service) {
    exists id :: id in info && info[id].service == service
  }

  /** The entry and the one it evicts exchanged their roles. */
  lemma ExchangeDone(info: Infos, id: int, out: int, e: AddrInfo, e': AddrInfo, nNew: int, nTried: int)
    requires id in info && out in info && id != out && !info[id].inTried && info[out].inTried && e.inTried && !e'.inTried
    requires nNew == |NewIds(info)| && nTried == |TriedIds(info)|
    ensures var info' := info[id := info[id].(refCount := 0)][out := e'][id := e];
            && info' == (info - {id})[out := e'][id := e] && info' == info[out := e'][id := e]
            && info'.Keys == info.Keys && CountsOk(info', nNew, nTried)
  {
    CountsSwap(info, info[out := e'][id := e], id, out);
  }

  /** What putting `id` into bucket b does: nothing else if there was room, else one entry is released. */
  ghost predicate MadeRoom(info: Infos, news: seq<set<int>>, b: nat, now: int, rnd: nat -> nat, id: int, gone: Option<int>,
                           info': Infos, news': seq<set<int>>)
    requires b < |news|
  {
    && (gone.None? <==> |news[b]| < NEW_BUCKET_SIZE)
    && (gone.None? ==> SameButPlaces(info, info') && news' == news[b := news[b] + {id}])
    && (gone.Some? ==> gone.value in info && SameButPlaces(Released(info, gone.value), info') &&
                       news' == news[b := news[b] - {gone.value} + {id}] &&
                       exists r :: Dropped(info, news[b], now, rnd, r, gone.value))
  }

  lemma OthersKept(info: Infos, news: seq<set<int>>, b: nat, now: int, rnd: nat -> nat, id: int, gone: Option<int>,
                   info': Infos, news': seq<set<int>>)
    requires b < |news| && MadeRoom(info, news, b, now, rnd, id, gone, info', news')
    ensures forall i :: i in info && gone != Some(i) ==> i in info' && UpToPlace(info'[i], info[i])
  {
  }

  lemma GainMeans(e: AddrInfo, time: int, luck: nat)
    requires Gains(e, time, luck)
    ensures !e.inTried && e.refCount < NEW_BUCKETS_PER_ADDRESS
  {
  }

  lemma SameIsSame(info: Infos)
    ensures SameButPlaces(info, info)
  {
  }

  /** The list holds the entries at the front of vRandom. */
  ghost predicate ListedAt(info: Infos, random: seq<int>, list: seq<AddrInfo>) {
    |list| <= |random| && forall i :: 0 <= i < |list| ==> random[i] in info && UpToPlace(list[i], info[random[i]])
  }

  lemma NothingListed(info: Infos, random: seq<int>)
    ensures ListedAt(info, random, [])
  {
  }

  lemma ListNext(info: Infos, random: seq<int>, place: nat, list: seq<AddrInfo>, e: AddrInfo)
    requires ListedAt(info, random, list) && |list| <= place < |random| && random[place] in info && UpToPlace(e, info[random[place]])
    ensures ListedAt(info, random[|list| := random[place]][place := random[|list|]], list + [e])
  {
  }

  lemma ListedNow(a: Infos, b: Infos, random: seq<int>, list: seq<AddrInfo>)
    requires ListedAt(a, random, list) && SameButPlaces(a, b)
    ensures ListedAt(b, random, list)
  {
    forall i | 0 <= i < |list| ensures random[i] in b && UpToPlace(list[i], b[random[i]]) { SamePlace(a, b, random[i]); }
  }

  lemma PlacesKeepCounts(a: Infos, b: Infos, nNew: int, nTried: int)
    requires SameButPlaces(a, b) && CountsOk(a, nNew, nTried)
    ensures CountsOk(b, nNew, nTried)
  {
    PlacesKeepTables(a, b, [], -1, [], _ => 0);
  }

  lemma SwapPermutes(s: seq<int>, i: nat, j: nat)
    requires i < |s| && j < |s|
    ensures multiset(s[i := s[j]][j := s[i]]) == multiset(s)
  {
  }

  class Manager {
    const triedHome: Service -> nat             // GetTriedBucket under this manager's key
    const newHome: (Service, NetAddr) -> nat    // GetNewBucket under this manager's key
    var nIdCount: int
    var mapInfo: Infos
    var mapAddr: map<NetAddr, int>
    var vRandom: seq<int>
    var nTried: int
    var vvTried: seq<seq<int>>
    var nNew: int
    var vvNew: seq<set<int>>

    ghost predicate HomesOk() {
      && (forall s: Service :: triedHome(s) < TRIED_BUCKET_COUNT)
      && (forall s: Service, a: NetAddr :: newHome(s, a) < NEW_BUCKET_COUNT)
    }

    /** All tables agree, except that the reference count of `x` is one ahead of the new table. */
    ghost predicate Structure(x: int)
      reads this
    {
      && HomesOk()
      && IndexOk(mapInfo, mapAddr, vRandom, nIdCount)
      && NewOk(mapInfo, vvNew, x)
      && TriedOk(mapInfo, vvTried, triedHome)
      && CountsOk(mapInfo, nNew, nTried)
    }

    /** What Check_ looks for, and more. */
    ghost predicate Valid()
      reads this
    {
      Structure(-1) && TimesOk(mapInfo)
    }

    constructor (triedHome: Service -> nat, newHome: (Service, NetAddr) -> nat)
      requires forall s: Service :: triedHome(s) < TRIED_BUCKET_COUNT
      requires forall s: Service, a: NetAddr :: newHome(s, a) < NEW_BUCKET_COUNT
      ensures Valid() && mapInfo == map[] && mapAddr == map[] && vRandom == [] && nIdCount == nTried == nNew == 0
      ensures this.triedHome == triedHome && this.newHome == newHome
    {
      this.triedHome, this.newHome := triedHome, newHome;
      nIdCount, nTried, nNew := 0, 0, 0;
      mapInfo, mapAddr, vRandom := map[], map[], [];
      vvTried := seq(TRIED_BUCKET_COUNT, _ => []);
      vvNew := seq(NEW_BUCKET_COUNT, _ => {});
    }

    method Find(addr: NetAddr) returns (r: Option<int>)
      requires IndexOk(mapInfo, mapAddr, vRandom, nIdCount)
      ensures r == if addr in mapAddr then Some(mapAddr[addr]) else None
      ensures r.Some? ==> r.value in mapInfo && mapInfo[r.value].service.net == addr
      ensures r.None? ==> forall id :: id in mapInfo ==> mapInfo[id].service.net != addr
    {
      if addr !in mapAddr {
        assert forall id :: id in mapInfo ==> AddrOk(mapInfo, mapAddr, id);
        return None;
      }
      if mapAddr[addr] in mapInfo {
        return Some(mapAddr[addr]);
      }
      return None;
    }

    /** Creates an entry at the end of vRandom. */
    method Create(service: Service, services: set<nat>, time: int, source: NetAddr) returns (id: int)
      requires IndexOk(mapInfo, mapAddr, vRandom, nIdCount) && service.net !in mapAddr
      modifies this`nIdCount, this`mapInfo, this`mapAddr, this`vRandom
      ensures id == old(nIdCount) && nIdCount == id + 1 && id !in old(mapInfo)
      ensures mapAddr == old(mapAddr)[service.net := id] && vRandom == old(vRandom) + [id]
      ensures mapInfo == old(mapInfo)[id := AddrInfo(service, source, services, time, 0, 0, 0, 0, false, |old(vRandom)|)]
      ensures IndexOk(mapInfo, mapAddr, vRandom, nIdCount)
    {
      id := nIdCount;
      var e := AddrInfo(service, source, services, time, 0, 0, 0, 0, false, |vRandom|);
      CreateKeeps(mapInfo, mapAddr, vRandom, nIdCount, e);
      nIdCount := nIdCount + 1;
      mapInfo := mapInfo[id := e];
      mapAddr := mapAddr[service.net := id];
      vRandom := vRandom + [id];
    }

    method SwapRandom(i: nat, j: nat)
      requires IndexOk(mapInfo, mapAddr, vRandom, nIdCount) && i < |vRandom| && j < |vRandom|
      modifies this`mapInfo, this`vRandom
      ensures IndexOk(mapInfo, mapAddr, vRandom, nIdCount) && SameButPlaces(old(mapInfo), mapInfo)
      ensures vRandom == old(vRandom)[i := old(vRandom)[j]][j := old(vRandom)[i]]
    {
      if i == j {
        return;
      }
      SwapKeeps(mapInfo, mapAddr, vRandom, nIdCount, i, j);
      var a, b := vRandom[i], vRandom[j];
      mapInfo := mapInfo[a := mapInfo[a].(randomPos := j)];
      mapInfo := mapInfo[b := mapInfo[b].(randomPos := i)];
      vRandom := vRandom[i := b];
      vRandom := vRandom[j := a];
    }

    /** Deletes an entry: it goes to the end of vRandom and off it. */
    method Erase(id: int)
      requires IndexOk(mapInfo, mapAddr, vRandom, nIdCount) && id in mapInfo
      modifies this`mapInfo, this`mapAddr, this`vRandom
      ensures IndexOk(mapInfo, mapAddr, vRandom, nIdCount)
      ensures SameButPlaces(old(mapInfo) - {id}, mapInfo)
    {
      assert RandomOk(mapInfo, vRandom, id);
      SwapRandom(mapInfo[id].randomPos, |vRandom| - 1);
      assert RandomOk(mapInfo, vRandom, id);
      PopKeeps(mapInfo, mapAddr, vRandom, nIdCount, id);
      vRandom := vRandom[..|vRandom| - 1];
      mapAddr := mapAddr - {mapInfo[id].service.net};
      mapInfo := mapInfo - {id};
    }

    /** Takes an id out of a new bucket, deleting its entry with its last reference. */
    method Release(b: nat, id: int, ghost x: int)
      requires Structure(x) && b < NEW_BUCKET_COUNT && id in vvNew[b] && id != x
      modifies this`mapInfo, this`mapAddr, this`vRandom, this`vvNew, this`nNew
      ensures Structure(x) && id in old(mapInfo)
      ensures SameButPlaces(Released(old(mapInfo), id), mapInfo)
      ensures vvNew == old(vvNew)[b := old(vvNew)[b] - {id}]
    {
      hide IndexOk, NewOk, TriedOk;
      NewSize(mapInfo, vvNew, x);
      LeaveBucket(mapInfo, vvNew, x, b, id);
      LeaveTried(mapInfo, vvTried, triedHome, id);
      ghost var released := Released(mapInfo, id);
      if mapInfo[id].refCount - 1 == 0 {
        assert id in NewIds(mapInfo);
        Erase(id);
        nNew := nNew - 1;
      } else {
        Touch(mapInfo, id, mapInfo[id].(refCount := mapInfo[id].refCount - 1), mapAddr, vRandom, nIdCount);
        mapInfo := mapInfo[id := mapInfo[id].(refCount := mapInfo[id].refCount - 1)];
      }
      vvNew := vvNew[b := vvNew[b] - {id}];
      PlacesKeepTables(released, mapInfo, vvNew, x, vvTried, triedHome);
    }

    /** Makes room in a full new bucket: the first terrible entry if there is one, else the oldest of four drawn
        at random. */
    method ShrinkNew(b: nat, now: int, rnd: nat -> nat, ghost x: int) returns (r: int, ghost gone: int)
      requires Structure(x) && b < NEW_BUCKET_COUNT && |vvNew[b]| > 0 && x !in vvNew[b]
      modifies this`mapInfo, this`mapAddr, this`vRandom, this`vvNew, this`nNew
      ensures Structure(x) && gone in old(vvNew)[b] && gone in old(mapInfo)
      ensures SameButPlaces(Released(old(mapInfo), gone), mapInfo)
      ensures vvNew == old(vvNew)[b := old(vvNew)[b] - {gone}]
      ensures Dropped(old(mapInfo), old(vvNew)[b], now, rnd, r, gone)
    {
      assert BucketOk(mapInfo, vvNew[b]);
      var order := InOrder(vvNew[b]);
      forall i | 0 <= i < |order| ensures order[i] in mapInfo { assert order[i] in order; }
      for i := 0 to |order|
        invariant forall j :: 0 <= j < i ==> !IsTerrible(mapInfo[order[j]], now)
      {
        if IsTerrible(mapInfo[order[i]], now) {
          gone := order[i];
          assert Chooses(mapInfo, order, now, rnd, 0, gone);
          Release(b, order[i], x);
          return 0, gone;
        }
      }
      var oldest := OldestOfFour(order, mapInfo, FourPlaces(rnd, |order|));
      gone := oldest;
      assert Chooses(mapInfo, order, now, rnd, 1, gone);
      Release(b, oldest, x);
      r := 1;
    }

    /** Shuffles the front of a tried bucket and names a place in it to replace. The tried table may hold
        fewer entries than there are infos: one may be on its way into it. */
    method SelectTried(k: nat, rnd: nat -> nat, ghost settled: Infos) returns (pos: int)
      requires k < TRIED_BUCKET_COUNT && TriedOk(settled, vvTried, triedHome) && settled.Keys <= mapInfo.Keys
      modifies this`vvTried
      ensures TriedOk(settled, vvTried, triedHome)
      ensures |old(vvTried)| == |vvTried| == TRIED_BUCKET_COUNT && Known(mapInfo, old(vvTried)[k])
      ensures var seen := Inspect(mapInfo, old(vvTried)[k], rnd, Min(ENTRIES_INSPECTED, |old(vvTried)[k]|));
              vvTried == old(vvTried)[k := seen.bucket] && pos == seen.pos
    {
      hide TriedOk, Known, Inspect;
      TriedSize(settled, vvTried, triedHome);
      ghost var bucket0 := vvTried[k];
      BucketKnown(settled, vvTried, triedHome, k, mapInfo);
      InspectNothing(mapInfo, bucket0, rnd);
      var oldest, i := -1, 0;
      pos := -1;
      while i < ENTRIES_INSPECTED && i < |vvTried[k]|
        invariant 0 <= i <= |bucket0| && i <= ENTRIES_INSPECTED && |vvTried| == TRIED_BUCKET_COUNT && |vvTried[k]| == |bucket0|
        invariant TriedOk(settled, vvTried, triedHome)
        invariant var seen := Inspect(mapInfo, bucket0, rnd, i);
                  && vvTried == old(vvTried)[k := seen.bucket] && pos == seen.pos
                  && (seen.step >= 0 ==> oldest == seen.bucket[seen.step])
        decreases |vvTried[k]| - i
      {
        var place := Draw(rnd, i, |vvTried[k]|);
        ShuffleTried(settled, vvTried, triedHome, k, i, place);
        InspectNext(mapInfo, bucket0, rnd, i);
        var bucket := vvTried[k];
        var temp := bucket[place];
        bucket := bucket[place := bucket[i]];
        bucket := bucket[i := temp];
        vvTried := vvTried[k := bucket];
        if pos == -1 || mapInfo[temp].lastSuccess < mapInfo[oldest].lastSuccess {
          oldest, pos := temp, place;
        }
        i := i + 1;
      }
    }

    /** Moves an entry from its new buckets to its tried bucket. If that is full, exactly one entry leaves it: the
        one at the place SelectTried names, for its own new bucket if there is room, else for `origin`. */
    method MakeTried(id: int, origin: nat, rnd: nat -> nat) returns (ghost out: Option<int>)
      requires Structure(-1) && id in mapInfo && !mapInfo[id].inTried && origin < NEW_BUCKET_COUNT && id in vvNew[origin]
      modifies this`mapInfo, this`vvNew, this`vvTried, this`nNew, this`nTried
      ensures Structure(-1) && mapInfo.Keys == old(mapInfo).Keys
      ensures MovedToTried(old(mapInfo), old(vvNew), old(vvTried), id, origin, rnd, out, mapInfo, vvNew, vvTried)
    {
      hide IndexOk, NewOk, TriedOk, Evicted, Count;
      ghost var info0, tried0 := mapInfo, vvTried;
      IdsNatural(mapInfo, mapAddr, vRandom, nIdCount);
      SetAside(mapInfo, vvNew, vvTried, triedHome, id);
      NewRefs(mapInfo, vvNew, -1, id);
      NewSize(mapInfo, vvNew, -1);
      TriedSize(mapInfo, vvTried, triedHome);
      SmallerBucket(vvNew[origin], id);
      vvNew, mapInfo := Forget(vvNew, mapInfo, id);
      nNew := nNew - 1;
      Touch(info0, id, mapInfo[id], mapAddr, vRandom, nIdCount);
      ghost var others := info0 - {id};
      var k := triedHome(mapInfo[id].service);
      if |vvTried[k]| < TRIED_BUCKET_SIZE {
        Settle(id, k, info0, others);
        return None;
      }
      ghost var o := Displace(id, k, origin, rnd, info0, others);
      out := Some(o);
    }

    /** What MakeTried does to the tables; `out` is the entry it evicts, if any. */
    ghost predicate MovedToTried(info: Infos, news: seq<set<int>>, tried: seq<seq<int>>, id: int, origin: nat, rnd: nat -> nat,
                                 out: Option<int>, info': Infos, news': seq<set<int>>, tried': seq<seq<int>>)
      requires id in info
    {
      var e := info[id].(refCount := 0, inTried := true);
      var k, left := triedHome(info[id].service), Without(news, id);
      && k < |tried|
      && (out.None? <==> |tried[k]| < TRIED_BUCKET_SIZE)
      && (out.None? ==> info' == info[id := e] && news' == left && tried' == tried[k := tried[k] + [id]])
      && (out.Some? ==> Evicted(info, left, tried, id, e, k, origin, rnd, out.value, info', news', tried'))
    }

    ghost predicate Evicted(info: Infos, left: seq<set<int>>, tried: seq<seq<int>>, id: int, e: AddrInfo, k: nat, origin: nat, rnd: nat -> nat,
                            out: int, info': Infos, news': seq<set<int>>, tried': seq<seq<int>>)
      requires k < |tried|
    {
      && Known(info, tried[k]) && tried[k] != [] && out in info && out != id && origin < |left|
      && var seen := Inspect(info, tried[k], rnd, Min(ENTRIES_INSPECTED, |tried[k]|));
         var home := newHome(info[out].service, info[out].source);
         && out == seen.bucket[seen.pos] && home < |left|
         && info' == info[out := info[out].(inTried := false, refCount := 1)][id := e]
         && (var b := if |left[home]| < NEW_BUCKET_SIZE then home else origin; news' == left[b := left[b] + {out}])
         && tried' == tried[k := seen.bucket[seen.pos := id]]
    }

    /** The half of MakeTried for a bucket with room. */
    method Settle(id: int, k: nat, ghost info0: Infos, ghost others: Infos)
      requires HomesOk() && id in mapInfo && !mapInfo[id].inTried && mapInfo[id].refCount == 0
      requires id in info0 && !info0[id].inTried && others == info0 - {id}
      requires mapInfo == info0[id := info0[id].(refCount := 0)]
      requires IndexOk(mapInfo, mapAddr, vRandom, nIdCount)
      requires NewOk(others, vvNew, -1) && TriedOk(others, vvTried, triedHome)
      requires k == triedHome(mapInfo[id].service) && k < TRIED_BUCKET_COUNT && |vvTried| == TRIED_BUCKET_COUNT && |vvTried[k]| < TRIED_BUCKET_SIZE
      requires nNew == |NewIds(info0)| - 1 && nTried == |TriedIds(info0)|
      modifies this`mapInfo, this`vvTried, this`nTried
      ensures Structure(-1) && mapInfo == info0[id := info0[id].(refCount := 0, inTried := true)]
      ensures vvTried == old(vvTried)[k := old(vvTried)[k] + [id]]
    {
      hide IndexOk, NewOk, TriedOk;
      var e := mapInfo[id].(inTried := true);
      EnterTried(others, vvNew, vvTried, triedHome, id, e);
      Touch(mapInfo, id, e, mapAddr, vRandom, nIdCount);
      vvTried := vvTried[k := vvTried[k] + [id]];
      nTried := nTried + 1;
      mapInfo := mapInfo[id := e];
      assert mapInfo == others[id := e];
      CountsMove(info0, mapInfo, id);
    }

    /** The eviction half of MakeTried. */
    method Displace(id: int, k: nat, origin: nat, rnd: nat -> nat, ghost info0: Infos, ghost others: Infos) returns (ghost o: int)
      requires HomesOk() && id in mapInfo && !mapInfo[id].inTried && mapInfo[id].refCount == 0
      requires id in info0 && !info0[id].inTried && others == info0 - {id}
      requires mapInfo == info0[id := info0[id].(refCount := 0)]
      requires IndexOk(mapInfo, mapAddr, vRandom, nIdCount)
      requires NewOk(others, vvNew, -1) && TriedOk(others, vvTried, triedHome)
      requires k == triedHome(mapInfo[id].service) && k < TRIED_BUCKET_COUNT && |vvTried| == TRIED_BUCKET_COUNT && |vvTried[k]| == TRIED_BUCKET_SIZE
      requires |vvNew| == NEW_BUCKET_COUNT && origin < NEW_BUCKET_COUNT && |vvNew[origin]| < NEW_BUCKET_SIZE
      requires nNew == |NewIds(info0)| - 1 && nTried == |TriedIds(info0)|
      modifies this`mapInfo, this`vvNew, this`vvTried, this`nNew
      ensures Structure(-1) && mapInfo.Keys == info0.Keys
      ensures Evicted(info0, old(vvNew), old(vvTried), id, info0[id].(refCount := 0, inTried := true), k, origin, rnd, o,
                      mapInfo, vvNew, vvTried)
    {
      hide IndexOk, NewOk, TriedOk, Inspect, Known, Evicted, CountsOk;
      ghost var news0, tried0 := vvNew, vvTried;
      BucketKnown(others, vvTried, triedHome, k, info0);
      SameTimes(info0, mapInfo, vvTried[k], rnd, Min(ENTRIES_INSPECTED, |vvTried[k]|));
      var pos := SelectTried(k, rnd, others);
      var out := vvTried[k][pos];
      o := out;
      TriedKnown(others, vvTried, triedHome, k, pos);
      var u := newHome(mapInfo[out].service, mapInfo[out].source);
      var target := if |vvNew[u]| < NEW_BUCKET_SIZE then u else origin;
      Exchange(id, out, k, pos, target, info0, others);
      EvictedBy(info0, news0, tried0, id, mapInfo[id], k, origin, rnd, out, mapInfo, vvNew, vvTried, pos, target);
    }

    /** The entry takes the place of `out` in the tried bucket, and `out` goes to a new bucket. */
    method Exchange(id: int, out: int, k: nat, pos: nat, target: nat, ghost info0: Infos, ghost others: Infos)
      requires HomesOk() && id in info0 && !info0[id].inTried && others == info0 - {id} && out in others && others[out].inTried
      requires mapInfo == info0[id := info0[id].(refCount := 0)] && IndexOk(mapInfo, mapAddr, vRandom, nIdCount)
      requires NewOk(others, vvNew, -1) && TriedOk(others, vvTried, triedHome)
      requires k == triedHome(info0[id].service) && k < |vvTried| && pos < |vvTried[k]| && out == vvTried[k][pos]
      requires target < |vvNew| && |vvNew[target]| < NEW_BUCKET_SIZE
      requires nNew == |NewIds(info0)| - 1 && nTried == |TriedIds(info0)|
      modifies this`mapInfo, this`vvNew, this`vvTried, this`nNew
      ensures Structure(-1) && mapInfo.Keys == info0.Keys
      ensures mapInfo == info0[out := info0[out].(inTried := false, refCount := 1)][id := info0[id].(refCount := 0, inTried := true)]
      ensures vvNew == old(vvNew)[target := old(vvNew)[target] + {out}]
      ensures vvTried == old(vvTried)[k := old(vvTried)[k][pos := id]]
    {
      hide IndexOk, NewOk, TriedOk, CountsOk;
      IdsNatural(mapInfo, mapAddr, vRandom, nIdCount);
      var e := mapInfo[id].(inTried := true);
      var e' := mapInfo[out].(inTried := false, refCount := 1);
      Evict(others, vvNew, vvTried, triedHome, id, e, pos, target);
      Touch(mapInfo, out, e', mapAddr, vRandom, nIdCount);
      Touch(mapInfo[out := e'], id, e, mapAddr, vRandom, nIdCount);
      mapInfo := mapInfo[out := e'];
      vvNew := vvNew[target := vvNew[target] + {out}];
      nNew := nNew + 1;
      vvTried := vvTried[k := vvTried[k][pos := id]];
      mapInfo := mapInfo[id := e];
      ExchangeDone(info0, id, out, e, e', nNew, nTried);
    }

    lemma EvictedBy(info: Infos, left: seq<set<int>>, tried: seq<seq<int>>, id: int, e: AddrInfo, k: nat, origin: nat, rnd: nat -> nat,
                    out: int, info': Infos, news': seq<set<int>>, tried': seq<seq<int>>, pos: int, target: nat)
      requires k < |tried| && Known(info, tried[k]) && tried[k] != [] && out in info && out != id && origin < |left|
      requires var seen := Inspect(info, tried[k], rnd, Min(ENTRIES_INSPECTED, |tried[k]|));
               pos == seen.pos && out == seen.bucket[pos] && tried' == tried[k := seen.bucket[pos := id]]
      requires var home := newHome(info[out].service, info[out].source);
               home < |left| && target == if |left[home]| < NEW_BUCKET_SIZE then home else origin
      requires info' == info[out := info[out].(inTried := false, refCount := 1)][id := e] && news' == left[target := left[target] + {out}]
      ensures Evicted(info, left, tried, id, e, k, origin, rnd, out, info', news', tried')
    {
      hide Inspect, Known;
    }

    /** Marks an address as good, moving it to the tried table if it was new. Only that entry and the one it evicts
        change. */
    method Good(service: Service, time: int, luck: nat, rnd: nat -> nat) returns (ghost out: Option<int>, ghost origin: nat)
      requires Structure(-1)
      modifies this`mapInfo, this`vvNew, this`vvTried, this`nNew, this`nTried
      ensures Structure(-1) && mapInfo.Keys == old(mapInfo).Keys
      ensures old(TimesOk(mapInfo)) && time > 0 ==> TimesOk(mapInfo)
      ensures !IsKnown(old(mapInfo), service) ==> mapInfo == old(mapInfo) && vvNew == old(vvNew) && vvTried == old(vvTried) && out == None
      ensures IsKnown(old(mapInfo), service) ==>
        service.net in mapAddr && var id := mapAddr[service.net];
        && id in mapInfo && mapInfo[id] == Succeeded(old(mapInfo)[id], time).(refCount := 0, inTried := true)
        && (old(mapInfo)[id].inTried ==> out == None && vvNew == old(vvNew) && vvTried == old(vvTried))
        && (!old(mapInfo)[id].inTried ==>
              && FoundFrom(old(vvNew), id, luck % NEW_BUCKET_COUNT, origin)
              && MovedToTried(old(mapInfo)[id := Succeeded(old(mapInfo)[id], time)], old(vvNew), old(vvTried), id, origin, rnd, out,
                              mapInfo, vvNew, vvTried))
        && forall i :: i in mapInfo && i != id ==>
             mapInfo[i] == if out == Some(i) then old(mapInfo)[i].(inTried := false, refCount := 1) else old(mapInfo)[i]
    {
      hide IndexOk, NewOk, TriedOk, MovedToTried, FoundFrom, TimesOk;
      out, origin := None, 0;
      var found := Find(service.net);
      OnlyOne(service.net);
      if found.None? || mapInfo[found.value].service != service {
        return;
      }
      var id := found.value;
      IdsNatural(mapInfo, mapAddr, vRandom, nIdCount);
      TriedRefs(mapInfo, vvTried, triedHome, id);
      var e := Succeeded(mapInfo[id], time);
      Touch(mapInfo, id, e, mapAddr, vRandom, nIdCount);
      TouchTables(mapInfo, id, e, vvNew, -1, vvTried, triedHome);
      mapInfo := mapInfo[id := e];
      if !e.inTried {
        out, origin := Promote(id, luck % NEW_BUCKET_COUNT, rnd);
      }
      GoodTimes(old(mapInfo), id, time, mapInfo);
    }

    lemma GoodTimes(info: Infos, id: int, time: int, info': Infos)
      requires id in info && info'.Keys == info.Keys && info'[id].lastTry == info'[id].lastSuccess == time
      requires forall i :: i in info && i != id ==> info'[i].lastTry == info[i].lastTry && info'[i].lastSuccess == info[i].lastSuccess
      requires forall i :: i in info && i != id && info'[i].inTried ==> info[i].inTried
      ensures TimesOk(info) && time > 0 ==> TimesOk(info')
    {
    }

    /** Moves a new entry to the tried table, from the first bucket of the round that holds it. */
    method Promote(id: int, start: nat, rnd: nat -> nat) returns (ghost out: Option<int>, ghost origin: nat)
      requires Structure(-1) && id in mapInfo && !mapInfo[id].inTried && id != -1 && start < NEW_BUCKET_COUNT
      modifies this`mapInfo, this`vvNew, this`vvTried, this`nNew, this`nTried
      ensures Structure(-1) && mapInfo.Keys == old(mapInfo).Keys && FoundFrom(old(vvNew), id, start, origin)
      ensures MovedToTried(old(mapInfo), old(vvNew), old(vvTried), id, origin, rnd, out, mapInfo, vvNew, vvTried)
      ensures mapInfo[id] == old(mapInfo)[id].(refCount := 0, inTried := true)
      ensures forall i :: i in mapInfo && i != id ==>
        mapInfo[i] == if out == Some(i) then old(mapInfo)[i].(inTried := false, refCount := 1) else old(mapInfo)[i]
    {
      hide IndexOk, NewOk, TriedOk, MovedToTried, FoundFrom;
      var bucket := FindBucket(id, start);
      origin := bucket;
      out := MakeTried(id, bucket, rnd);
      MovedEntries(old(mapInfo), old(vvNew), old(vvTried), id, bucket, rnd, out, mapInfo, vvNew, vvTried);
    }

    lemma MovedEntries(info: Infos, news: seq<set<int>>, tried: seq<seq<int>>, id: int, origin: nat, rnd: nat -> nat,
                       out: Option<int>, info': Infos, news': seq<set<int>>, tried': seq<seq<int>>)
      requires id in info && MovedToTried(info, news, tried, id, origin, rnd, out, info', news', tried')
      ensures info'.Keys == info.Keys && info'[id] == info[id].(refCount := 0, inTried := true)
      ensures forall i :: i in info && i != id ==>
        info'[i] == if out == Some(i) then info[i].(inTried := false, refCount := 1) else info[i]
    {
      hide Inspect, Known;
    }

    /** Searches the new buckets from a random one on for a given id. */
    method FindBucket(id: int, start: nat) returns (b: nat)
      requires NewOk(mapInfo, vvNew, -1) && id in mapInfo && id != -1 && !mapInfo[id].inTried && start < NEW_BUCKET_COUNT
      ensures b < NEW_BUCKET_COUNT && id in vvNew[b] && FoundFrom(vvNew, id, start, b)
    {
      assert RefsOk(mapInfo, vvNew, -1, id);
      ghost var some := CountFind(vvNew, id);
      var n := 0;
      while n < NEW_BUCKET_COUNT && id !in vvNew[Rotated(start, n)]
        invariant 0 <= n <= NEW_BUCKET_COUNT
        invariant forall m :: 0 <= m < n ==> id !in vvNew[Rotated(start, m)]
      {
        n := n + 1;
      }
      ghost var m := if some >= start then some - start else some - start + NEW_BUCKET_COUNT;
      assert Rotated(start, m) == some;
      if n == NEW_BUCKET_COUNT {
        assert false;
      }
      b := Rotated(start, n);
    }

    /** Records a connection attempt. */
    method Attempt(service: Service, time: int)
      requires Structure(-1)
      modifies this`mapInfo
      ensures Structure(-1) && mapInfo.Keys == old(mapInfo).Keys
      ensures old(TimesOk(mapInfo)) && time >= 0 ==> TimesOk(mapInfo)
      ensures forall id :: id in mapInfo ==>
        mapInfo[id] == if old(mapInfo)[id].service == service
                       then old(mapInfo)[id].(lastTry := time, attempts := old(mapInfo)[id].attempts + 1) else old(mapInfo)[id]
    {
      hide IndexOk, NewOk, TriedOk;
      var found := Find(service.net);
      OnlyOne(service.net);
      if found.None? || mapInfo[found.value].service != service {
        return;
      }
      var id := found.value;
      var e := mapInfo[id].(lastTry := time, attempts := mapInfo[id].attempts + 1);
      Touch(mapInfo, id, e, mapAddr, vRandom, nIdCount);
      TouchTables(mapInfo, id, e, vvNew, -1, vvTried, triedHome);
      mapInfo := mapInfo[id := e];
    }

    lemma OnlyOne(net: NetAddr)
      requires IndexOk(mapInfo, mapAddr, vRandom, nIdCount)
      ensures forall id :: id in mapInfo && mapInfo[id].service.net == net ==> net in mapAddr && mapAddr[net] == id
    {
      forall id | id in mapInfo && mapInfo[id].service.net == net ensures net in mapAddr && mapAddr[net] == id {
        assert AddrOk(mapInfo, mapAddr, id);
      }
    }

    /** Records that an address is currently connected. */
    method Connected(service: Service, time: int)
      requires Structure(-1)
      modifies this`mapInfo
      ensures Structure(-1) && mapInfo.Keys == old(mapInfo).Keys
      ensures old(TimesOk(mapInfo)) ==> TimesOk(mapInfo)
      ensures forall id :: id in mapInfo ==>
        mapInfo[id] == if old(mapInfo)[id].service == service && time - old(mapInfo)[id].time > 20 * 60
                       then old(mapInfo)[id].(time := time) else old(mapInfo)[id]
    {
      hide IndexOk, NewOk, TriedOk;
      var found := Find(service.net);
      OnlyOne(service.net);
      if found.None? || mapInfo[found.value].service != service {
        return;
      }
      var id := found.value;
      if time - mapInfo[id].time > 20 * 60 {
        var e := mapInfo[id].(time := time);
        Touch(mapInfo, id, e, mapAddr, vRandom, nIdCount);
        TouchTables(mapInfo, id, e, vvNew, -1, vvTried, triedHome);
        mapInfo := mapInfo[id := e];
      }
    }

    /** Updates a known entry; true if it may gain one more new bucket. */
    method Refresh(id: int, services: set<nat>, time: int, penalty: int, now: int, luck: nat) returns (again: bool)
      requires Structure(-1) && id in mapInfo
      modifies this`mapInfo
      ensures Structure(-1) && mapInfo.Keys == old(mapInfo).Keys
      ensures old(TimesOk(mapInfo)) ==> TimesOk(mapInfo)
      ensures mapInfo == old(mapInfo)[id := Refreshed(old(mapInfo)[id], services, time, penalty, now)]
      ensures again <==> Gains(mapInfo[id], time, luck)
    {
      hide IndexOk, NewOk, TriedOk;
      IdsNatural(mapInfo, mapAddr, vRandom, nIdCount);
      var e := mapInfo[id];
      var interval := if now - time < DAY then 60 * 60 else DAY;
      if time != 0 && (e.time == 0 || e.time < time - interval - penalty) {
        e := e.(time := Max(0, time - penalty));
      }
      e := e.(services := e.services + services);
      Touch(mapInfo, id, e, mapAddr, vRandom, nIdCount);
      TouchTables(mapInfo, id, e, vvNew, -1, vvTried, triedHome);
      mapInfo := mapInfo[id := e];
      if time == 0 || (e.time != 0 && time <= e.time) {
        return false;
      }
      if e.inTried {
        return false;
      }
      NewRefs(mapInfo, vvNew, -1, id);
      if e.refCount == NEW_BUCKETS_PER_ADDRESS {
        return false;
      }
      var factor := 1;
      for n := 0 to e.refCount
        invariant factor == Pow2(n)
      {
        factor := factor * 2;
      }
      again := !(factor > 1 && luck % factor != 0);
    }

    /** Promises a known new entry one more reference. */
    method Again(id: int)
      requires Structure(-1) && id in mapInfo && !mapInfo[id].inTried && mapInfo[id].refCount < NEW_BUCKETS_PER_ADDRESS
      modifies this`mapInfo
      ensures Structure(id) && mapInfo == old(mapInfo)[id := old(mapInfo)[id].(refCount := old(mapInfo)[id].refCount + 1)]
    {
      hide IndexOk, NewOk, TriedOk;
      var e := mapInfo[id].(refCount := mapInfo[id].refCount + 1);
      IdsNatural(mapInfo, mapAddr, vRandom, nIdCount);
      Promise(mapInfo, vvNew, id);
      Touch(mapInfo, id, e, mapAddr, vRandom, nIdCount);
      NewEntryTried(mapInfo, vvTried, triedHome, id, e);
      RolesKept(mapInfo, id, e);
      mapInfo := mapInfo[id := e];
    }

    /** Creates an entry and promises it its first reference. */
    method Enter(service: Service, services: set<nat>, time: int, source: NetAddr, penalty: int) returns (id: int)
      requires Structure(-1) && service.net !in mapAddr
      modifies this`nIdCount, this`mapInfo, this`mapAddr, this`vRandom, this`nNew
      ensures Structure(id) && id == old(nIdCount) && id !in old(mapInfo)
      ensures mapInfo == old(mapInfo)[id := FreshEntry(service, services, time, source, penalty, |old(vRandom)|)]
      ensures forall b :: 0 <= b < |vvNew| ==> id !in vvNew[b]
    {
      hide IndexOk, TriedOk;
      ghost var info0 := mapInfo;
      IdsNatural(mapInfo, mapAddr, vRandom, nIdCount);
      id := Create(service, services, time, source);
      forall b | 0 <= b < |vvNew| ensures id !in vvNew[b] { assert BucketOk(info0, vvNew[b]); }
      var e := mapInfo[id].(time := Max(0, time - penalty));
      e := e.(refCount := e.refCount + 1);
      IdsNatural(mapInfo, mapAddr, vRandom, nIdCount);
      Touch(mapInfo, id, e, mapAddr, vRandom, nIdCount);
      PromiseNew(info0, vvNew, id, e);
      NewEntryTried(info0, vvTried, triedHome, id, e);
      mapInfo := mapInfo[id := e];
      assert mapInfo == info0[id := e];
      CountsAdd(info0, id, e);
      nNew := nNew + 1;
    }

    /** Puts a promised reference into its bucket; if that is full, one entry chosen by ShrinkNew makes room. */
    method Place(id: int, b: nat, now: int, rnd: nat -> nat) returns (ghost gone: Option<int>)
      requires Structure(id) && id in mapInfo && !mapInfo[id].inTried && b < NEW_BUCKET_COUNT && id !in vvNew[b]
      modifies this`mapInfo, this`mapAddr, this`vRandom, this`vvNew, this`nNew
      ensures Structure(-1) && id in mapInfo && id in vvNew[b]
      ensures UpToPlace(mapInfo[id], old(mapInfo)[id])
      ensures old(TimesOk(mapInfo)) ==> TimesOk(mapInfo)
      ensures MadeRoom(old(mapInfo), old(vvNew), b, now, rnd, id, gone, mapInfo, vvNew)
    {
      hide IndexOk, NewOk, TriedOk, Dropped;
      NewSize(mapInfo, vvNew, id);
      gone := None;
      SameIsSame(mapInfo);
      if |vvNew[b]| == NEW_BUCKET_SIZE {
        ghost var before, size := mapInfo, |vvNew[b]|;
        ghost var g;
        var r;
        r, g := ShrinkNew(b, now, rnd, id);
        gone := Some(g);
        assert id in Released(before, g);
      }
      IdsNatural(mapInfo, mapAddr, vRandom, nIdCount);
      NewSize(mapInfo, vvNew, id);
      JoinBucket(mapInfo, vvNew, id, b);
      vvNew := vvNew[b := vvNew[b] + {id}];
    }

    /** Adds or refreshes an address heard of from `source`, and returns whether it is new. Its entry, its bucket and,
        if that was full, the entry that makes room are all that changes. */
    method Add(service: Service, routable: bool, services: set<nat>, time: int, source: NetAddr, penalty: int, now: int, luck: nat, rnd: nat -> nat)
      returns (isNew: bool, ghost gone: Option<int>)
      requires Structure(-1)
      modifies this`nIdCount, this`mapInfo, this`mapAddr, this`vRandom, this`vvNew, this`nNew
      ensures Structure(-1)
      ensures old(TimesOk(mapInfo)) ==> TimesOk(mapInfo)
      ensures isNew <==> routable && service.port != 0 && service.net !in old(mapAddr)
      ensures !routable || service.port == 0 ==> mapInfo == old(mapInfo) && vvNew == old(vvNew) && gone == None
      ensures isNew ==> Entered(old(mapInfo), old(vvNew), service, services, time, source, penalty, now, rnd, old(nIdCount), |old(vRandom)|,
                                gone, mapInfo, vvNew)
      ensures isNew ==> service.net in mapAddr && mapAddr[service.net] == old(nIdCount)
      ensures routable && service.port != 0 && service.net in old(mapAddr) ==>
        old(mapAddr)[service.net] in old(mapInfo) &&
        HeardAgain(old(mapInfo), old(vvNew), old(mapAddr)[service.net], services, time, source, penalty, now, luck, rnd, gone, mapInfo, vvNew)
    {
      hide IndexOk, NewOk, TriedOk, HeardAgain, Entered;
      gone := None;
      if !routable || service.port == 0 {
        return false, None;
      }
      var found := Find(service.net);
      if found.Some? {
        gone := AddKnown(found.value, services, time, source, penalty, now, luck, rnd);
        return false, gone;
      }
      gone := AddFresh(service, services, time, source, penalty, now, rnd);
      isNew := true;
    }

    /** What Add_ does for an address that has an entry: it is refreshed, and exactly if it gains a reference for a
        bucket it is not in, it enters that bucket. */
    ghost predicate HeardAgain(info: Infos, news: seq<set<int>>, id: int, services: set<nat>, time: int, source: NetAddr, penalty: int,
                               now: int, luck: nat, rnd: nat -> nat, gone: Option<int>, info': Infos, news': seq<set<int>>)
      requires id in info
    {
      var e, b := Refreshed(info[id], services, time, penalty, now), newHome(info[id].service, source);
      && b < |news|
      && if Gains(e, time, luck) && id !in news[b]
         then MadeRoom(info[id := e.(refCount := e.refCount + 1)], news, b, now, rnd, id, gone, info', news')
         else gone == None && info' == info[id := e] && news' == news
    }

    /** Add_ for an address that has an entry. */
    method AddKnown(id: int, services: set<nat>, time: int, source: NetAddr, penalty: int, now: int, luck: nat, rnd: nat -> nat)
      returns (ghost gone: Option<int>)
      requires Structure(-1) && id in mapInfo
      modifies this`mapInfo, this`mapAddr, this`vRandom, this`vvNew, this`nNew
      ensures Structure(-1) && (old(TimesOk(mapInfo)) ==> TimesOk(mapInfo))
      ensures HeardAgain(old(mapInfo), old(vvNew), id, services, time, source, penalty, now, luck, rnd, gone, mapInfo, vvNew)
    {
      hide IndexOk, NewOk, TriedOk, MadeRoom, Gains, UpdatedTime;
      gone := None;
      IdsNatural(mapInfo, mapAddr, vRandom, nIdCount);
      NewSize(mapInfo, vvNew, -1);
      var again := Refresh(id, services, time, penalty, now, luck);
      if !again {
        return;
      }
      var b := newHome(mapInfo[id].service, source);
      if id !in vvNew[b] {
        GainMeans(mapInfo[id], time, luck);
        ghost var e := mapInfo[id];
        Again(id);
        assert mapInfo == old(mapInfo)[id := e.(refCount := e.refCount + 1)];
        gone := Place(id, b, now, rnd);
      }
    }

    /** What Add_ does for a new address: its entry, with the next id, enters its bucket. */
    ghost predicate Entered(info: Infos, news: seq<set<int>>, service: Service, services: set<nat>, time: int, source: NetAddr, penalty: int,
                            now: int, rnd: nat -> nat, id: int, place: int, gone: Option<int>, info': Infos, news': seq<set<int>>)
    {
      var b := newHome(service, source);
      && b < |news| && id !in info
      && MadeRoom(info[id := FreshEntry(service, services, time, source, penalty, place)], news, b, now, rnd, id, gone, info', news')
    }

    /** The entry of a new address: heard of, never tried, with one reference; its time is put back by the penalty. */
    lemma EnteredMeans(info: Infos, news: seq<set<int>>, service: Service, services: set<nat>, time: int, source: NetAddr, penalty: int,
                       now: int, rnd: nat -> nat, id: int, place: int, gone: Option<int>, info': Infos, news': seq<set<int>>)
      requires Entered(info, news, service, services, time, source, penalty, now, rnd, id, place, gone, info', news')
      requires forall b :: 0 <= b < |news| ==> id !in news[b]
      ensures id in info' && var e := info'[id];
              && e.service == service && e.source == source && e.services == services
              && e.time == (if time > penalty then time - penalty else 0)
              && e.lastTry == 0 && e.lastSuccess == 0 && e.attempts == 0 && e.refCount == 1 && !e.inTried
    {
      hide Dropped;
      var b := newHome(service, source);
      var with := info[id := FreshEntry(service, services, time, source, penalty, place)];
      if gone.Some? {
        var r :| Dropped(with, news[b], now, rnd, r, gone.value);
        DroppedFor(with, news[b], now, rnd, r, gone.value);
      }
      OthersKept(with, news, b, now, rnd, id, gone, info', news');
    }

    /** Add_ for an address without one. */
    method AddFresh(service: Service, services: set<nat>, time: int, source: NetAddr, penalty: int, now: int, rnd: nat -> nat)
      returns (ghost gone: Option<int>)
      requires Structure(-1) && service.net !in mapAddr
      modifies this`nIdCount, this`mapInfo, this`mapAddr, this`vRandom, this`vvNew, this`nNew
      ensures Structure(-1) && (old(TimesOk(mapInfo)) ==> TimesOk(mapInfo))
      ensures Entered(old(mapInfo), old(vvNew), service, services, time, source, penalty, now, rnd, old(nIdCount), |old(vRandom)|,
                      gone, mapInfo, vvNew)
      ensures service.net in mapAddr && mapAddr[service.net] == old(nIdCount)
    {
      hide IndexOk, NewOk, TriedOk, MadeRoom;
      var id := Enter(service, services, time, source, penalty);
      var b := newHome(mapInfo[id].service, source);
      NewSize(mapInfo, vvNew, id);
      gone := Place(id, b, now, rnd);
      OnlyOne(service.net);
    }

    /** Returns a random selection of known addresses, no two of them the same. */
    method GetAddr() returns (list: seq<AddrInfo>)
      requires Structure(-1)
      modifies this`mapInfo, this`vRandom
      ensures Structure(-1) && SameButPlaces(old(mapInfo), mapInfo)
      ensures multiset(vRandom) == multiset(old(vRandom))
      ensures |list| <= 2500 && 100 * |list| <= 23 * |vRandom| && (|list| == 2500 || 23 * |vRandom| < 100 * (|list| + 1))
      ensures ListedAt(old(mapInfo), vRandom, list)
      ensures forall i, j :: 0 <= i < j < |list| ==> list[i].service.net != list[j].service.net
      ensures old(TimesOk(mapInfo)) ==> TimesOk(mapInfo)
    {
      hide NewOk, TriedOk, IndexOk, SameButPlaces, TimesOk, ListedAt, CountsOk;
      ghost var info0, random0 := mapInfo, vRandom;
      PlacesTrans(info0, info0, info0);
      var count := Selected(|vRandom|);
      list := [];
      NothingListed(info0, vRandom);
      for n := 0 to count
        invariant |vRandom| == |random0| && multiset(vRandom) == multiset(random0)
        invariant IndexOk(mapInfo, mapAddr, vRandom, nIdCount) && SameButPlaces(info0, mapInfo)
        invariant |list| == n && ListedAt(info0, vRandom, list)
      {
        var place :| n <= place < |vRandom|;
        list := DrawNext(place, list, info0);
      }
      ListedNow(info0, mapInfo, vRandom, list);
      PlacesTimes(info0, mapInfo);
      PlacesKeepTables(info0, mapInfo, vvNew, -1, vvTried, triedHome);
      PlacesKeepCounts(info0, mapInfo, nNew, nTried);
      DistinctNets(list);
    }

    /** Swaps the entry at `place` to the front part and lists it. */
    method DrawNext(place: nat, list: seq<AddrInfo>, ghost info0: Infos) returns (list': seq<AddrInfo>)
      requires |list| <= place < |vRandom| && ListedAt(info0, vRandom, list)
      requires IndexOk(mapInfo, mapAddr, vRandom, nIdCount) && SameButPlaces(info0, mapInfo)
      modifies this`mapInfo, this`vRandom
      ensures |vRandom| == |old(vRandom)| && multiset(vRandom) == multiset(old(vRandom))
      ensures IndexOk(mapInfo, mapAddr, vRandom, nIdCount) && SameButPlaces(info0, mapInfo)
      ensures |list'| == |list| + 1 && ListedAt(info0, vRandom, list')
    {
      hide IndexOk, SameButPlaces, ListedAt;
      var n := |list|;
      ghost var before, info := vRandom, mapInfo;
      SwapRandom(n, place);
      SwapPermutes(before, n, place);
      PlacesTrans(info0, info, mapInfo);
      RandomKnown(mapInfo, mapAddr, vRandom, nIdCount, n);
      SamePlace(info0, mapInfo, vRandom[n]);
      ListNext(info0, before, place, list, mapInfo[vRandom[n]]);
      list' := list + [mapInfo[vRandom[n]]];
    }

    lemma DistinctNets(list: seq<AddrInfo>)
      requires IndexOk(mapInfo, mapAddr, vRandom, nIdCount) && ListedAt(mapInfo, vRandom, list)
      ensures forall i, j :: 0 <= i < j < |list| ==> list[i].service.net != list[j].service.net
    {
      forall i, j | 0 <= i < j < |list|
        ensures list[i].service.net != list[j].service.net
      {
        assert AddrOk(mapInfo, mapAddr, vRandom[i]) && AddrOk(mapInfo, mapAddr, vRandom[j]);
      }
    }
  }
}
