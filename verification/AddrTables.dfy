/** The tables of the address manager and the invariant that ties them together. */
module AddrTables {
  const TRIED_BUCKET_COUNT := 256
  const TRIED_BUCKET_SIZE := 64
  const NEW_BUCKET_COUNT := 1024
  const NEW_BUCKET_SIZE := 64
  const NEW_BUCKETS_PER_ADDRESS := 8

  type NetAddr = int

  datatype Service = Service(net: NetAddr, port: nat)

  datatype AddrInfo = AddrInfo(service: Service, source: NetAddr, services: set<nat>, time: int,
                               lastTry: int, lastSuccess: int, attempts: int,
                               refCount: int, inTried: bool, randomPos: int)

  type Infos = map<int, AddrInfo>

  // ----- ids, addresses and the random order

  ghost predicate AddrOk(info: Infos, addr: map<NetAddr, int>, id: int)
    requires id in info
  {
    info[id].service.net in addr && addr[info[id].service.net] == id
  }

  ghost predicate RandomOk(info: Infos, random: seq<int>, id: int)
    requires id in info
  {
    0 <= info[id].randomPos < |random| && random[info[id].randomPos] == id
  }

  /** mapAddr and mapInfo are inverse to each other, and so are vRandom and nRandomPos. */
  ghost predicate IndexOk(info: Infos, addr: map<NetAddr, int>, random: seq<int>, nextId: int) {
    && 0 <= nextId
    && (forall id :: id in info ==> 0 <= id < nextId && AddrOk(info, addr, id) && RandomOk(info, random, id))
    && (forall a :: a in addr ==> addr[a] in info && info[addr[a]].service.net == a)
    && (forall i :: 0 <= i < |random| ==> random[i] in info && info[random[i]].randomPos == i)
  }

  // ----- the new table

  /** How many new buckets hold the id. */
  function Count(table: seq<set<int>>, id: int): nat {
    if table == [] then 0
    else Count(table[..|table| - 1], id) + if id in table[|table| - 1] then 1 else 0
  }

  /** Each bucket holds at most 64 ids, all of them new; an entry's reference count is the number of buckets
      that hold it, between 1 and 8. While `x` is on its way into a bucket its count is one ahead. */
  ghost predicate NewOk(info: Infos, table: seq<set<int>>, x: int) {
    && |table| == NEW_BUCKET_COUNT
    && (forall b :: 0 <= b < |table| ==> BucketOk(info, table[b]))
    && (forall id :: id in info && !info[id].inTried ==> RefsOk(info, table, x, id))
  }

  ghost predicate BucketOk(info: Infos, bucket: set<int>) {
    |bucket| <= NEW_BUCKET_SIZE && forall id :: id in bucket ==> id in info && !info[id].inTried
  }

  ghost predicate RefsOk(info: Infos, table: seq<set<int>>, x: int, id: int)
    requires id in info
  {
    1 <= info[id].refCount <= NEW_BUCKETS_PER_ADDRESS && info[id].refCount == Count(table, id) + if id == x then 1 else 0
  }

  // ----- the tried table

  predicate Distinct(s: seq<int>) {
    forall i, j :: 0 <= i < j < |s| ==> s[i] != s[j]
  }

  /** Each bucket holds at most 64 different tried ids, each in the bucket its address hashes to. */
  ghost predicate TriedOk(info: Infos, table: seq<seq<int>>, home: Service -> nat) {
    && |table| == TRIED_BUCKET_COUNT
    && (forall k :: 0 <= k < |table| ==> |table[k]| <= TRIED_BUCKET_SIZE && Distinct(table[k]))
    && (forall k, id :: 0 <= k < |table| && id in table[k] ==> id in info && info[id].inTried && home(info[id].service) == k)
    && (forall id :: id in info && info[id].inTried ==> TriedHome(info, table, home, id))
  }

  ghost predicate TriedHome(info: Infos, table: seq<seq<int>>, home: Service -> nat, id: int)
    requires id in info
  {
    info[id].refCount == 0 && home(info[id].service) < |table| && id in table[home(info[id].service)]
  }

  // ----- counters and times

  ghost function NewIds(info: Infos): set<int> {
    set id | id in info && !info[id].inTried
  }

  ghost function TriedIds(info: Infos): set<int> {
    set id | id in info && info[id].inTried
  }

  ghost predicate CountsOk(info: Infos, nNew: int, nTried: int) {
    nNew == |NewIds(info)| && nTried == |TriedIds(info)|
  }

  ghost predicate TimesOk(info: Infos) {
    forall id :: id in info ==> info[id].lastTry >= 0 && info[id].lastSuccess >= 0 && (info[id].inTried ==> info[id].lastSuccess != 0)
  }

  // ----- counting

  lemma {:induction false} CountUpdate(table: seq<set<int>>, b: nat, bucket: set<int>, id: int)
    requires b < |table|
    ensures Count(table[b := bucket], id) == Count(table, id) - (if id in table[b] then 1 else 0) + (if id in bucket then 1 else 0)
  {
    var n := |table| - 1;
    if b == n {
      assert table[b := bucket][..n] == table[..n];
    } else {
      assert table[b := bucket][..n] == table[..n][b := bucket];
      CountUpdate(table[..n], b, bucket, id);
    }
  }

  lemma {:induction false} CountPrefix(table: seq<set<int>>, n: nat, id: int)
    requires n <= |table|
    ensures Count(table[..n], id) <= Count(table, id)
  {
    if n < |table| {
      var init := table[..|table| - 1];
      CountPrefix(init, n, id);
      assert init[..n] == table[..n];
    } else {
      assert table[..n] == table;
    }
  }

  lemma CountSnoc(table: seq<set<int>>, n: nat, id: int)
    requires n < |table|
    ensures Count(table[..n + 1], id) == Count(table[..n], id) + if id in table[n] then 1 else 0
  {
    assert table[..n + 1][..n] == table[..n];
  }

  lemma {:induction false} CountPositive(table: seq<set<int>>, b: nat, id: int)
    requires b < |table| && id in table[b]
    ensures Count(table, id) > 0
  {
    var n := |table| - 1;
    if b < n {
      CountPositive(table[..n], b, id);
    }
  }

  lemma {:induction false} CountZero(table: seq<set<int>>, id: int)
    requires forall b :: 0 <= b < |table| ==> id !in table[b]
    ensures Count(table, id) == 0
  {
    if table != [] {
      CountZero(table[..|table| - 1], id);
    }
  }

  lemma {:induction false} CountFind(table: seq<set<int>>, id: int) returns (b: nat)
    requires Count(table, id) > 0
    ensures b < |table| && id in table[b]
  {
    var n := |table| - 1;
    if id in table[n] {
      b := n;
    } else {
      b := CountFind(table[..n], id);
    }
  }

  // ----- single steps

  /** A change the new and tried tables do not see. */
  predicate SameRole(a: AddrInfo, b: AddrInfo) {
    a.service == b.service && a.refCount == b.refCount && a.inTried == b.inTried
  }

  lemma Touch(info: Infos, id: int, e: AddrInfo, addr: map<NetAddr, int>, random: seq<int>, nextId: int)
    requires id in info && e.service == info[id].service && e.randomPos == info[id].randomPos
    requires IndexOk(info, addr, random, nextId)
    ensures IndexOk(info[id := e], addr, random, nextId)
  {
    forall i | i in info ensures AddrOk(info[id := e], addr, i) && RandomOk(info[id := e], random, i) {
      assert AddrOk(info, addr, i) && RandomOk(info, random, i);
    }
  }

  lemma TouchTables(info: Infos, id: int, e: AddrInfo, news: seq<set<int>>, x: int, tried: seq<seq<int>>, home: Service -> nat)
    requires id in info && SameRole(info[id], e)
    ensures NewOk(info, news, x) ==> NewOk(info[id := e], news, x)
    ensures TriedOk(info, tried, home) ==> TriedOk(info[id := e], tried, home)
    ensures NewIds(info[id := e]) == NewIds(info) && TriedIds(info[id := e]) == TriedIds(info)
  {
    var info' := info[id := e];
    if NewOk(info, news, x) {
      forall b | 0 <= b < |news| ensures BucketOk(info', news[b]) { assert BucketOk(info, news[b]); }
      forall i | i in info' && !info'[i].inTried ensures RefsOk(info', news, x, i) { assert RefsOk(info, news, x, i); }
    }
    if TriedOk(info, tried, home) {
      forall i | i in info' && info'[i].inTried ensures TriedHome(info', tried, home, i) { assert TriedHome(info, tried, home, i); }
    }
  }

  /** Swapping two positions of vRandom with their back references. */
  lemma SwapKeeps(info: Infos, addr: map<NetAddr, int>, random: seq<int>, nextId: int, i: nat, j: nat)
    requires IndexOk(info, addr, random, nextId) && i < |random| && j < |random| && i != j
    ensures var a, b := random[i], random[j];
            a != b && a in info && b in info &&
            IndexOk(info[a := info[a].(randomPos := j)][b := info[b].(randomPos := i)], addr, random[i := b][j := a], nextId)
  {
    var a, b := random[i], random[j];
    var info' := info[a := info[a].(randomPos := j)][b := info[b].(randomPos := i)];
    var random' := random[i := b][j := a];
    forall id | id in info' ensures AddrOk(info', addr, id) && RandomOk(info', random', id) {
      assert AddrOk(info, addr, id) && RandomOk(info, random, id);
    }
  }

  /** Dropping the entry at the end of vRandom. */
  lemma PopKeeps(info: Infos, addr: map<NetAddr, int>, random: seq<int>, nextId: int, id: int)
    requires IndexOk(info, addr, random, nextId) && random != [] && random[|random| - 1] == id && id in info
    ensures IndexOk(info - {id}, addr - {info[id].service.net}, random[..|random| - 1], nextId)
  {
    var info', addr', random' := info - {id}, addr - {info[id].service.net}, random[..|random| - 1];
    assert AddrOk(info, addr, id) && RandomOk(info, random, id);
    forall i | i in info' ensures AddrOk(info', addr', i) && RandomOk(info', random', i) {
      assert AddrOk(info, addr, i) && RandomOk(info, random, i);
    }
  }

  lemma CreateKeeps(info: Infos, addr: map<NetAddr, int>, random: seq<int>, nextId: int, e: AddrInfo)
    requires IndexOk(info, addr, random, nextId) && e.service.net !in addr && e.randomPos == |random|
    ensures nextId !in info
    ensures IndexOk(info[nextId := e], addr[e.service.net := nextId], random + [nextId], nextId + 1)
  {
    var info', addr', random' := info[nextId := e], addr[e.service.net := nextId], random + [nextId];
    forall i | i in info' ensures AddrOk(info', addr', i) && RandomOk(info', random', i) {
      if i in info { assert AddrOk(info, addr, i) && RandomOk(info, random, i); }
    }
  }

  // ----- leaving and joining new buckets

  /** The entries after `id` lost one reference; without references an entry is gone. */
  function Released(info: Infos, id: int): Infos
    requires id in info
  {
    if info[id].refCount == 1 then info - {id} else info[id := info[id].(refCount := info[id].refCount - 1)]
  }

  lemma LeaveBucket(info: Infos, news: seq<set<int>>, x: int, b: nat, id: int)
    requires NewOk(info, news, x) && b < |news| && id in news[b] && id != x
    ensures id in info && !info[id].inTried && NewOk(Released(info, id), news[b := news[b] - {id}], x)
    ensures NewIds(Released(info, id)) == if info[id].refCount == 1 then NewIds(info) - {id} else NewIds(info)
    ensures TriedIds(Released(info, id)) == TriedIds(info)
  {
    assert BucketOk(info, news[b]);
    assert RefsOk(info, news, x, id);
    var info', news' := Released(info, id), news[b := news[b] - {id}];
    forall i | i in info' && !info'[i].inTried
      ensures RefsOk(info', news', x, i)
    {
      assert RefsOk(info, news, x, i);
      CountUpdate(news, b, news[b] - {id}, i);
    }
    forall c | 0 <= c < |news'|
      ensures BucketOk(info', news'[c])
    {
      assert BucketOk(info, news[c]);
      CountUpdate(news, b, news[b] - {id}, id);
      if info[id].refCount == 1 && id in news'[c] {
        CountPositive(news', c, id);
      }
    }
  }

  lemma LeaveTried(info: Infos, tried: seq<seq<int>>, home: Service -> nat, id: int)
    requires TriedOk(info, tried, home) && id in info && !info[id].inTried
    ensures TriedOk(Released(info, id), tried, home)
  {
    var info' := Released(info, id);
    forall i | i in info' && info'[i].inTried ensures TriedHome(info', tried, home, i) { assert TriedHome(info, tried, home, i); }
  }

  lemma JoinBucket(info: Infos, news: seq<set<int>>, x: int, b: nat)
    requires NewOk(info, news, x) && b < |news| && x in info && !info[x].inTried && x !in news[b] && |news[b]| < NEW_BUCKET_SIZE
    requires -1 !in info
    ensures NewOk(info, news[b := news[b] + {x}], -1)
  {
    var news' := news[b := news[b] + {x}];
    forall i | i in info && !info[i].inTried
      ensures RefsOk(info, news', -1, i)
    {
      assert RefsOk(info, news, x, i);
      CountUpdate(news, b, news[b] + {x}, i);
    }
    forall c | 0 <= c < |news'| ensures BucketOk(info, news'[c]) { assert BucketOk(info, news[c]); }
  }

  /** One more reference is promised to `x`. */
  lemma Promise(info: Infos, news: seq<set<int>>, x: int)
    requires NewOk(info, news, -1) && -1 !in info && x in info && !info[x].inTried && info[x].refCount < NEW_BUCKETS_PER_ADDRESS
    ensures NewOk(info[x := info[x].(refCount := info[x].refCount + 1)], news, x)
  {
    var info' := info[x := info[x].(refCount := info[x].refCount + 1)];
    forall i | i in info' && !info'[i].inTried ensures RefsOk(info', news, x, i) { assert RefsOk(info, news, -1, i); }
    forall c | 0 <= c < |news| ensures BucketOk(info', news[c]) { assert BucketOk(info, news[c]); }
  }

  /** A fresh entry with its first reference promised. */
  lemma PromiseNew(info: Infos, news: seq<set<int>>, x: int, e: AddrInfo)
    requires NewOk(info, news, -1) && -1 !in info && x !in info && x != -1 && !e.inTried && e.refCount == 1
    ensures NewOk(info[x := e], news, x)
  {
    var info' := info[x := e];
    forall b | 0 <= b < |news| ensures x !in news[b] { assert BucketOk(info, news[b]); }
    CountZero(news, x);
    forall i | i in info' && !info'[i].inTried
      ensures RefsOk(info', news, x, i)
    {
      if i != x { assert RefsOk(info, news, -1, i); }
    }
    forall c | 0 <= c < |news| ensures BucketOk(info', news[c]) { assert BucketOk(info, news[c]); }
  }

  lemma NewEntryTried(info: Infos, tried: seq<seq<int>>, home: Service -> nat, x: int, e: AddrInfo)
    requires TriedOk(info, tried, home) && (x in info ==> !info[x].inTried) && !e.inTried
    ensures TriedOk(info[x := e], tried, home)
  {
    var info' := info[x := e];
    forall i | i in info' && info'[i].inTried ensures TriedHome(info', tried, home, i) { assert TriedHome(info, tried, home, i); }
  }

  // ----- moving to the tried table

  /** The new table without the id. */
  function Without(news: seq<set<int>>, id: int): (r: seq<set<int>>)
    ensures |r| == |news| && forall b :: 0 <= b < |news| ==> r[b] == news[b] - {id}
  {
    seq(|news|, b requires 0 <= b < |news| => news[b] - {id})
  }

  lemma {:induction false} CountWithout(news: seq<set<int>>, id: int, other: int)
    ensures Count(Without(news, id), other) == if other == id then 0 else Count(news, other)
  {
    if news != [] {
      var n := |news| - 1;
      assert Without(news, id)[..n] == Without(news[..n], id);
      CountWithout(news[..n], id, other);
    }
  }

  /** With one entry set aside, the others still satisfy the invariant. */
  lemma SetAside(info: Infos, news: seq<set<int>>, tried: seq<seq<int>>, home: Service -> nat, id: int)
    requires NewOk(info, news, -1) && TriedOk(info, tried, home) && id in info && !info[id].inTried
    ensures NewOk(info - {id}, Without(news, id), -1) && TriedOk(info - {id}, tried, home)
  {
    var info', news' := info - {id}, Without(news, id);
    forall i | i in info' && !info'[i].inTried
      ensures RefsOk(info', news', -1, i)
    {
      assert RefsOk(info, news, -1, i);
      CountWithout(news, id, i);
    }
    forall b | 0 <= b < |news'| ensures BucketOk(info', news'[b]) { assert BucketOk(info, news[b]); SmallerBucket(news[b], id); }
    forall i | i in info' && info'[i].inTried ensures TriedHome(info', tried, home, i) { assert TriedHome(info, tried, home, i); }
  }

  lemma SmallerBucket(s: set<int>, id: int)
    ensures |s - {id}| == if id in s then |s| - 1 else |s|
  {
    if id !in s { assert s - {id} == s; }
  }

  /** The set-aside entry takes a free place in its tried bucket. */
  lemma EnterTried(info: Infos, news: seq<set<int>>, tried: seq<seq<int>>, home: Service -> nat, id: int, e: AddrInfo)
    requires id !in info && NewOk(info, news, -1) && TriedOk(info, tried, home)
    requires e.inTried && e.refCount == 0 && home(e.service) < |tried| && |tried[home(e.service)]| < TRIED_BUCKET_SIZE
    ensures var k := home(e.service);
            NewOk(info[id := e], news, -1) && TriedOk(info[id := e], tried[k := tried[k] + [id]], home)
  {
    var k := home(e.service);
    var info', tried' := info[id := e], tried[k := tried[k] + [id]];
    forall i | i in info' && !info'[i].inTried ensures RefsOk(info', news, -1, i) { assert RefsOk(info, news, -1, i); }
    forall b | 0 <= b < |news| ensures BucketOk(info', news[b]) { assert BucketOk(info, news[b]); }
    forall i | i in info' && info'[i].inTried
      ensures TriedHome(info', tried', home, i)
    {
      if i != id { assert TriedHome(info, tried, home, i); }
    }
  }

  /** The set-aside entry replaces another, which goes back to a new bucket with room. */
  lemma Evict(info: Infos, news: seq<set<int>>, tried: seq<seq<int>>, home: Service -> nat, id: int, e: AddrInfo, pos: nat, u: nat)
    requires id !in info && -1 !in info && NewOk(info, news, -1) && TriedOk(info, tried, home)
    requires e.inTried && e.refCount == 0 && home(e.service) < |tried| && pos < |tried[home(e.service)]|
    requires u < |news| && |news[u]| < NEW_BUCKET_SIZE
    ensures var k := home(e.service);
            var old' := tried[k][pos];
            && old' in info && old' != id && info[old'].inTried
            && NewOk(info[old' := info[old'].(inTried := false, refCount := 1)][id := e], news[u := news[u] + {old'}], -1)
            && TriedOk(info[old' := info[old'].(inTried := false, refCount := 1)][id := e],
                       tried[k := tried[k][pos := id]], home)
  {
    var k := home(e.service);
    var out := tried[k][pos];
    assert out in tried[k];
    EvictNew(info, news, out, id, e, u);
    EvictTried(info, tried, home, out, id, e, pos);
  }

  lemma EvictNew(info: Infos, news: seq<set<int>>, out: int, id: int, e: AddrInfo, u: nat)
    requires id !in info && -1 !in info && NewOk(info, news, -1) && out in info && info[out].inTried && e.inTried
    requires u < |news| && |news[u]| < NEW_BUCKET_SIZE
    ensures NewOk(info[out := info[out].(inTried := false, refCount := 1)][id := e], news[u := news[u] + {out}], -1)
  {
    var info', news' := info[out := info[out].(inTried := false, refCount := 1)][id := e], news[u := news[u] + {out}];
    forall b | 0 <= b < |news| ensures out !in news[b] { assert BucketOk(info, news[b]); }
    CountZero(news, out);
    forall i | i in info' && !info'[i].inTried
      ensures RefsOk(info', news', -1, i)
    {
      if i != out { assert RefsOk(info, news, -1, i); }
      CountUpdate(news, u, news[u] + {out}, i);
    }
    forall b | 0 <= b < |news'| ensures BucketOk(info', news'[b]) { assert BucketOk(info, news[b]); }
  }

  lemma EvictTried(info: Infos, tried: seq<seq<int>>, home: Service -> nat, out: int, id: int, e: AddrInfo, pos: nat)
    requires id !in info && TriedOk(info, tried, home) && out in info && info[out].inTried && e.inTried && e.refCount == 0
    requires home(e.service) < |tried| && pos < |tried[home(e.service)]| && tried[home(e.service)][pos] == out
    ensures var k := home(e.service);
            TriedOk(info[out := info[out].(inTried := false, refCount := 1)][id := e], tried[k := tried[k][pos := id]], home)
  {
    var k := home(e.service);
    var bucket := tried[k][pos := id];
    var info', tried' := info[out := info[out].(inTried := false, refCount := 1)][id := e], tried[k := bucket];
    assert forall i :: i in bucket ==> i == id || (i in tried[k] && i != out);
    forall i | i in info' && info'[i].inTried
      ensures TriedHome(info', tried', home, i)
    {
      if i != id {
        assert TriedHome(info, tried, home, i);
        if home(info[i].service) == k {
          var j :| 0 <= j < |tried[k]| && tried[k][j] == i;
          assert bucket[j] == i;
        }
      } else {
        assert bucket[pos] == id;
      }
    }
    assert out !in bucket;
  }

  /** Swapping two places of a tried bucket changes nothing the invariant sees. */
  lemma ShuffleTried(info: Infos, tried: seq<seq<int>>, home: Service -> nat, k: nat, i: nat, j: nat)
    requires TriedOk(info, tried, home) && k < |tried| && i < |tried[k]| && j < |tried[k]|
    ensures var bucket := tried[k][j := tried[k][i]][i := tried[k][j]];
            TriedOk(info, tried[k := bucket], home) && multiset(bucket) == multiset(tried[k])
  {
    var bucket := tried[k][j := tried[k][i]][i := tried[k][j]];
    var tried' := tried[k := bucket];
    assert forall x :: x in bucket ==> x in tried[k];
    forall x | x in tried[k]
      ensures x in bucket
    {
      var p :| 0 <= p < |tried[k]| && tried[k][p] == x;
      assert bucket[if p == i then j else if p == j then i else p] == x;
    }
    forall x | x in info && info[x].inTried ensures TriedHome(info, tried', home, x) { assert TriedHome(info, tried, home, x); }
  }
}
