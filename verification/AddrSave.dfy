/** Writing an address manager to disk and reading it back: ids are renumbered, nothing is lost. */
module AddrSave {
  import opened Primitives
  import opened AddrTables
  import opened AddrMan

  /** The fields of CAddrInfo that are written. */
  datatype Record = Record(service: Service, services: set<nat>, time: int, source: NetAddr, lastSuccess: int, attempts: int)

  function RecordOf(e: AddrInfo): Record {
    Record(e.service, e.services, e.time, e.source, e.lastSuccess, e.attempts)
  }

  function EntryFrom(r: Record, refCount: int, inTried: bool, randomPos: int): AddrInfo {
    AddrInfo(r.service, r.source, r.services, r.time, 0, r.lastSuccess, r.attempts, refCount, inTried, randomPos)
  }

  /** The stream: all new entries, all tried entries, then the new buckets as indexes of new entries. */
  datatype Saved = Saved(news: seq<Record>, trieds: seq<Record>, table: seq<seq<int>>)

  function Elements(s: seq<int>): set<int> {
    set id | id in s
  }

  function Rows(table: seq<seq<int>>): (r: seq<set<int>>)
    ensures |r| == |table| && forall b :: 0 <= b < |table| ==> r[b] == Elements(table[b])
  {
    seq(|table|, b requires 0 <= b < |table| => Elements(table[b]))
  }

  function NetAt(s: Saved, i: nat): NetAddr
    requires i < |s.news| + |s.trieds|
  {
    if i < |s.news| then s.news[i].service.net else s.trieds[i - |s.news|].service.net
  }

  /** The tried entries, among the first n, that belong in bucket k. */
  ghost function Homed(s: Saved, home: Service -> nat, k: nat, n: nat): set<int>
    requires n <= |s.trieds|
  {
    set j: int | 0 <= j < n && home(s.trieds[j].service) == k
  }

  /** A stream that a consistent manager writes. */
  ghost predicate SavedOk(s: Saved, home: Service -> nat) {
    && (forall i, j :: 0 <= i < j < |s.news| + |s.trieds| ==> NetAt(s, i) != NetAt(s, j))
    && (forall k :: |Homed(s, home, k, |s.trieds|)| <= TRIED_BUCKET_SIZE)
    && |s.table| == NEW_BUCKET_COUNT
    && (forall b :: 0 <= b < |s.table| ==> |s.table[b]| <= NEW_BUCKET_SIZE && Distinct(s.table[b]))
    && (forall b, i :: 0 <= b < |s.table| && i in s.table[b] ==> 0 <= i < |s.news|)
    && (forall i :: 0 <= i < |s.news| ==> 1 <= Count(Rows(s.table), i) <= NEW_BUCKETS_PER_ADDRESS)
    && (forall i :: 0 <= i < |s.news| ==> s.news[i].lastSuccess >= 0)
    && (forall i :: 0 <= i < |s.trieds| ==> s.trieds[i].lastSuccess > 0)
  }

  // ----- what reading gives

  /** The entry that gets number i, when the first `rows` buckets have been read. */
  function Loaded(s: Saved, i: nat, rows: nat): AddrInfo
    requires i < |s.news| + |s.trieds| && rows <= |s.table|
  {
    if i < |s.news| then EntryFrom(s.news[i], Count(Rows(s.table)[..rows], i), false, i)
    else EntryFrom(s.trieds[i - |s.news|], 0, true, i)
  }

  ghost predicate LoadedInfo(s: Saved, info: Infos, n: nat, rows: nat)
    requires n <= |s.news| + |s.trieds| && rows <= |s.table|
  {
    && (forall id :: id in info <==> 0 <= id < n)
    && (forall i: int :: 0 <= i < n ==> info[i] == Loaded(s, i, rows))
  }

  ghost predicate LoadedAddr(s: Saved, addr: map<NetAddr, int>, n: nat)
    requires n <= |s.news| + |s.trieds|
  {
    && (forall i: int :: 0 <= i < n ==> NetAt(s, i) in addr && addr[NetAt(s, i)] == i)
    && (forall a :: a in addr ==> 0 <= addr[a] < n && NetAt(s, addr[a]) == a)
  }

  ghost predicate LoadedTried(s: Saved, tried: seq<seq<int>>, home: Service -> nat, n: nat)
    requires n <= |s.trieds|
  {
    |tried| == TRIED_BUCKET_COUNT && forall k :: 0 <= k < |tried| ==> BucketLoaded(s, tried[k], home, k, n)
  }

  ghost predicate InOrderUpTo(random: seq<int>, n: nat) {
    |random| == n && forall i :: 0 <= i < n ==> random[i] == i
  }

  /** The first loop of the reader. */
  method LoadNews(s: Saved, ghost home: Service -> nat) returns (info: Infos, addr: map<NetAddr, int>, random: seq<int>)
    requires SavedOk(s, home)
    ensures LoadedInfo(s, info, |s.news|, 0) && LoadedAddr(s, addr, |s.news|) && InOrderUpTo(random, |s.news|)
  {
    info, addr, random := map[], map[], [];
    for n := 0 to |s.news|
      invariant LoadedInfo(s, info, n, 0) && LoadedAddr(s, addr, n) && InOrderUpTo(random, n)
    {
      var e := EntryFrom(s.news[n], 0, false, |random|);
      assert forall i: int :: 0 <= i < n ==> NetAt(s, i) != NetAt(s, n);
      info := info[n := e];
      addr := addr[e.service.net := n];
      random := random + [n];
    }
  }

  lemma HomedNext(s: Saved, home: Service -> nat, k: nat, n: nat)
    requires n < |s.trieds|
    ensures Homed(s, home, k, n + 1) == Homed(s, home, k, n) + if home(s.trieds[n].service) == k then {n} else {}
    ensures n !in Homed(s, home, k, n)
  {
  }

  lemma HomedFits(s: Saved, home: Service -> nat, n: nat)
    requires SavedOk(s, home) && n < |s.trieds|
    ensures |Homed(s, home, home(s.trieds[n].service), n)| < TRIED_BUCKET_SIZE
  {
    var k := home(s.trieds[n].service);
    HomedNext(s, home, k, n);
    SubsetSize(Homed(s, home, k, n + 1), Homed(s, home, k, |s.trieds|));
  }

  ghost predicate BucketLoaded(s: Saved, bucket: seq<int>, home: Service -> nat, k: nat, n: nat)
    requires n <= |s.trieds|
  {
    && Distinct(bucket) && |bucket| == |Homed(s, home, k, n)|
    && forall id :: id in bucket <==> id - |s.news| in Homed(s, home, k, n)
  }

  lemma BucketNext(s: Saved, bucket: seq<int>, home: Service -> nat, k: nat, n: nat)
    requires n < |s.trieds| && BucketLoaded(s, bucket, home, k, n)
    ensures BucketLoaded(s, if home(s.trieds[n].service) == k then bucket + [|s.news| + n] else bucket, home, k, n + 1)
  {
    hide Homed;
    HomedNext(s, home, k, n);
    assert |s.news| + n !in bucket;
  }

  lemma TriedNext(s: Saved, tried: seq<seq<int>>, home: Service -> nat, n: nat)
    requires n < |s.trieds| && LoadedTried(s, tried, home, n) && home(s.trieds[n].service) < |tried|
    ensures var k := home(s.trieds[n].service);
            LoadedTried(s, tried[k := tried[k] + [|s.news| + n]], home, n + 1)
  {
    hide BucketLoaded;
    forall k | 0 <= k < |tried| { BucketNext(s, tried[k], home, k, n); }
  }

  /** The second loop of the reader: no tried bucket overflows, so no entry is lost. */
  method LoadTrieds(s: Saved, home: Service -> nat, info0: Infos, addr0: map<NetAddr, int>, random0: seq<int>)
    returns (info: Infos, addr: map<NetAddr, int>, random: seq<int>, tried: seq<seq<int>>, nLost: int)
    requires SavedOk(s, home) && forall r: Service :: home(r) < TRIED_BUCKET_COUNT
    requires LoadedInfo(s, info0, |s.news|, 0) && LoadedAddr(s, addr0, |s.news|) && InOrderUpTo(random0, |s.news|)
    ensures nLost == 0 && LoadedTried(s, tried, home, |s.trieds|)
    ensures LoadedInfo(s, info, |s.news| + |s.trieds|, 0)
    ensures LoadedAddr(s, addr, |s.news| + |s.trieds|) && InOrderUpTo(random, |s.news| + |s.trieds|)
  {
    hide SavedOk, LoadedTried;
    info, addr, random, nLost := info0, addr0, random0, 0;
    tried := seq(TRIED_BUCKET_COUNT, _ => []);
    var nextId := |s.news|;
    EmptyTried(s, home);
    for n := 0 to |s.trieds|
      invariant nLost == 0 && nextId == |s.news| + n && LoadedTried(s, tried, home, n)
      invariant LoadedInfo(s, info, nextId, 0) && LoadedAddr(s, addr, nextId) && InOrderUpTo(random, nextId)
    {
      var r := s.trieds[n];
      var k := home(r.service);
      HomedFits(s, home, n);
      TriedSizes(s, tried, home, n);
      if |tried[k]| < TRIED_BUCKET_SIZE {
        var e := EntryFrom(r, 0, true, |random|);
        NetsApart(s, home, nextId);
        TriedNext(s, tried, home, n);
        random := random + [nextId];
        info := info[nextId := e];
        addr := addr[e.service.net := nextId];
        tried := tried[k := tried[k] + [nextId]];
        nextId := nextId + 1;
      } else {
        nLost := nLost + 1;
      }
    }
  }

  lemma EmptyTried(s: Saved, home: Service -> nat)
    ensures LoadedTried(s, seq(TRIED_BUCKET_COUNT, _ => []), home, 0)
  {
    var tried: seq<seq<int>> := seq(TRIED_BUCKET_COUNT, _ => []);
    forall k: nat | k < |tried| ensures BucketLoaded(s, tried[k], home, k, 0) {
      assert Homed(s, home, k, 0) == {};
    }
  }

  lemma TriedSizes(s: Saved, tried: seq<seq<int>>, home: Service -> nat, n: nat)
    requires n <= |s.trieds| && LoadedTried(s, tried, home, n)
    ensures |tried| == TRIED_BUCKET_COUNT
    ensures forall k :: 0 <= k < |tried| ==> |tried[k]| == |Homed(s, home, k, n)|
  {
    forall k | 0 <= k < |tried| ensures |tried[k]| == |Homed(s, home, k, n)| { assert BucketLoaded(s, tried[k], home, k, n); }
  }

  lemma NetsApart(s: Saved, home: Service -> nat, n: nat)
    requires SavedOk(s, home) && n < |s.news| + |s.trieds|
    ensures forall i: int :: 0 <= i < n ==> NetAt(s, i) != NetAt(s, n)
  {
  }

  // ----- the new buckets

  /** The entries when the first n indexes of bucket b have been read. */
  ghost predicate LoadedRow(s: Saved, info: Infos, b: nat, n: nat)
    requires b < |s.table| && n <= |s.table[b]|
  {
    && (forall id :: id in info <==> 0 <= id < |s.news| + |s.trieds|)
    && (forall i: int :: 0 <= i < |s.news| + |s.trieds| ==>
          info[i] == Loaded(s, i, b).(refCount := Loaded(s, i, b).refCount + if i in s.table[b][..n] then 1 else 0))
  }

  lemma RowStart(s: Saved, info: Infos, b: nat)
    requires b < |s.table| && LoadedInfo(s, info, |s.news| + |s.trieds|, b)
    ensures LoadedRow(s, info, b, 0)
  {
  }

  /** The next index of a row: there is room for its reference, and counting it is one step further. */
  lemma RowNext(s: Saved, home: Service -> nat, info: Infos, b: nat, n: nat)
    requires SavedOk(s, home) && b < |s.table| && n < |s.table[b]| && LoadedRow(s, info, b, n)
    ensures var i := s.table[b][n];
            && i in info && info[i].refCount < NEW_BUCKETS_PER_ADDRESS
            && LoadedRow(s, info[i := info[i].(refCount := info[i].refCount + 1)], b, n + 1)
  {
    hide Loaded;
    var row := s.table[b];
    var i := row[n];
    assert i in row && i !in row[..n] by { RowIsDistinct(s, home, b); }
    StillRoom(s, home, b, i);
    LoadedRefs(s, i, b);
    assert row[..n + 1] == row[..n] + [i];
  }

  lemma RowIsDistinct(s: Saved, home: Service -> nat, b: nat)
    requires SavedOk(s, home) && b < |s.table|
    ensures Distinct(s.table[b])
  {
  }

  lemma LoadedRefs(s: Saved, i: nat, b: nat)
    requires i < |s.news| && b <= |s.table|
    ensures Loaded(s, i, b).refCount == Count(Rows(s.table)[..b], i)
  {
  }

  /** Reads one bucket, counting references up. */
  method LoadRow(s: Saved, ghost home: Service -> nat, info0: Infos, b: nat) returns (info: Infos, bucket: set<int>)
    requires SavedOk(s, home) && b < |s.table| && LoadedInfo(s, info0, |s.news| + |s.trieds|, b)
    ensures LoadedRow(s, info, b, |s.table[b]|) && bucket == Elements(s.table[b])
  {
    hide SavedOk, LoadedInfo, LoadedRow;
    info, bucket := info0, {};
    var row := s.table[b];
    RowStart(s, info0, b);
    for n := 0 to |row|
      invariant LoadedRow(s, info, b, n) && bucket == Elements(row[..n])
    {
      var i := row[n];
      RowNext(s, home, info, b, n);
      assert row[..n + 1] == row[..n] + [i];
      if info[i].refCount < NEW_BUCKETS_PER_ADDRESS {
        info := info[i := info[i].(refCount := info[i].refCount + 1)];
        bucket := bucket + {i};
      }
    }
    assert row[..|row|] == row;
  }

  lemma StillRoom(s: Saved, home: Service -> nat, b: nat, i: int)
    requires SavedOk(s, home) && b < |s.table| && i in s.table[b]
    ensures 0 <= i < |s.news| && Count(Rows(s.table)[..b], i) < NEW_BUCKETS_PER_ADDRESS
  {
    CountSnoc(Rows(s.table), b, i);
    CountPrefix(Rows(s.table), b + 1, i);
  }

  lemma RowDone(s: Saved, info: Infos, b: nat)
    requires b < |s.table| && LoadedRow(s, info, b, |s.table[b]|)
    requires forall c, i :: 0 <= c < |s.table| && i in s.table[c] ==> 0 <= i < |s.news|
    ensures LoadedInfo(s, info, |s.news| + |s.trieds|, b + 1)
  {
    assert s.table[b][..|s.table[b]|] == s.table[b];
    forall i: int | 0 <= i < |s.news| + |s.trieds|
      ensures info[i] == Loaded(s, i, b + 1)
    {
      CountSnoc(Rows(s.table), b, i);
    }
  }

  /** The last loop of the reader. */
  method LoadTable(s: Saved, ghost home: Service -> nat, info0: Infos) returns (info: Infos, news: seq<set<int>>)
    requires SavedOk(s, home) && LoadedInfo(s, info0, |s.news| + |s.trieds|, 0)
    ensures LoadedInfo(s, info, |s.news| + |s.trieds|, |s.table|) && news == Rows(s.table)
  {
    hide LoadedInfo, LoadedRow;
    info := info0;
    news := seq(NEW_BUCKET_COUNT, _ => {});
    for b := 0 to |s.table|
      invariant |news| == NEW_BUCKET_COUNT && LoadedInfo(s, info, |s.news| + |s.trieds|, b)
      invariant forall c :: 0 <= c < b ==> news[c] == Elements(s.table[c])
    {
      var bucket;
      info, bucket := LoadRow(s, home, info, b);
      RowDone(s, info, b);
      news := news[b := bucket];
    }
    assert news == Rows(s.table);
  }

  // ----- the tables that were read are consistent again

  lemma LoadedIndex(s: Saved, info: Infos, addr: map<NetAddr, int>, random: seq<int>)
    requires LoadedInfo(s, info, |s.news| + |s.trieds|, |s.table|)
    requires LoadedAddr(s, addr, |s.news| + |s.trieds|) && InOrderUpTo(random, |s.news| + |s.trieds|)
    ensures IndexOk(info, addr, random, |s.news| + |s.trieds|)
  {
    forall id | id in info
      ensures AddrOk(info, addr, id) && RandomOk(info, random, id)
    {
      assert info[id] == Loaded(s, id, |s.table|);
      assert NetAt(s, id) in addr;
    }
    forall a | a in addr ensures addr[a] in info && info[addr[a]].service.net == a {
      assert info[addr[a]] == Loaded(s, addr[a], |s.table|);
    }
  }

  lemma LoadedNew(s: Saved, home: Service -> nat, info: Infos)
    requires SavedOk(s, home) && LoadedInfo(s, info, |s.news| + |s.trieds|, |s.table|)
    ensures NewOk(info, Rows(s.table), -1)
  {
    var news := Rows(s.table);
    assert news[..|s.table|] == news;
    forall b | 0 <= b < |news|
      ensures BucketOk(info, news[b])
    {
      ElementsSize(s.table[b]);
      forall id | id in news[b] ensures id in info && !info[id].inTried { assert id in s.table[b]; }
    }
    forall id | id in info && !info[id].inTried ensures RefsOk(info, news, -1, id) {
      assert info[id] == Loaded(s, id, |s.table|);
    }
  }

  lemma {:induction false} ElementsSize(q: seq<int>)
    ensures |Elements(q)| <= |q|
    ensures Distinct(q) ==> |Elements(q)| == |q|
  {
    if q != [] {
      var n := |q| - 1;
      ElementsSize(q[..n]);
      assert q == q[..n] + [q[n]];
      assert Elements(q) == Elements(q[..n]) + {q[n]};
    }
  }

  lemma LoadedTriedOk(s: Saved, home: Service -> nat, info: Infos, tried: seq<seq<int>>)
    requires SavedOk(s, home) && LoadedInfo(s, info, |s.news| + |s.trieds|, |s.table|)
    requires LoadedTried(s, tried, home, |s.trieds|) && forall r: Service :: home(r) < TRIED_BUCKET_COUNT
    ensures TriedOk(info, tried, home)
  {
    forall k, id | 0 <= k < |tried| && id in tried[k]
      ensures id in info && info[id].inTried && home(info[id].service) == k
    {
      assert BucketLoaded(s, tried[k], home, k, |s.trieds|);
      assert id - |s.news| in Homed(s, home, k, |s.trieds|);
      assert info[id] == Loaded(s, id, |s.table|);
    }
    forall k | 0 <= k < |tried|
      ensures |tried[k]| <= TRIED_BUCKET_SIZE && Distinct(tried[k])
    {
      assert BucketLoaded(s, tried[k], home, k, |s.trieds|);
    }
    forall id | id in info && info[id].inTried
      ensures TriedHome(info, tried, home, id)
    {
      var k := home(info[id].service);
      assert BucketLoaded(s, tried[k], home, k, |s.trieds|);
      assert info[id] == Loaded(s, id, |s.table|);
      assert id - |s.news| in Homed(s, home, home(info[id].service), |s.trieds|);
    }
  }

  ghost function Range(lo: int, hi: int): (r: set<int>)
    ensures forall i :: i in r <==> lo <= i < hi
    ensures |r| == if lo <= hi then hi - lo else 0
    decreases hi - lo
  {
    if lo < hi then Range(lo, hi - 1) + {hi - 1} else {}
  }

  lemma LoadedKinds(s: Saved, info: Infos)
    requires LoadedInfo(s, info, |s.news| + |s.trieds|, |s.table|)
    ensures NewIds(info) == Range(0, |s.news|) && TriedIds(info) == Range(|s.news|, |s.news| + |s.trieds|)
  {
    hide Range;
    forall id | id in info ensures info[id].inTried <==> id >= |s.news| {
      assert info[id] == Loaded(s, id, |s.table|);
    }
  }

  lemma LoadedCounts(s: Saved, home: Service -> nat, info: Infos)
    requires SavedOk(s, home) && LoadedInfo(s, info, |s.news| + |s.trieds|, |s.table|)
    ensures CountsOk(info, |s.news|, |s.trieds|) && TimesOk(info)
  {
    hide Range, Homed, Distinct;
    LoadedKinds(s, info);
    forall id | id in info
      ensures info[id].lastTry >= 0 && info[id].lastSuccess >= 0 && (info[id].inTried ==> info[id].lastSuccess != 0)
    {
      assert info[id] == Loaded(s, id, |s.table|);
    }
  }

  // ----- writing

  lemma SubsetSame(a: set<int>, b: set<int>)
    requires a <= b && |a| == |b|
    ensures a == b
  {
    assert b == a + (b - a);
  }

  /** The entries of one kind in the order of their ids, up to the expected number of them. */
  ghost predicate Listed(info: Infos, kind: set<int>, ids: seq<int>, visited: seq<int>) {
    && Distinct(ids)
    && (forall id :: id in ids <==> id in visited && id in kind)
    && (forall i :: 0 <= i < |ids| ==> ids[i] in info)
  }

  lemma ListedAll(info: Infos, kind: set<int>, ids: seq<int>, visited: seq<int>, order: seq<int>)
    requires Listed(info, kind, ids, visited) && visited <= order && kind <= Elements(order)
    requires visited == order || |ids| == |kind|
    ensures Elements(ids) == kind && |ids| == |kind|
  {
    ElementsSize(ids);
    if visited == order {
      forall id | id in kind ensures id in Elements(ids) {
        assert id in Elements(order) && id in order && id in ids;
      }
      assert Elements(ids) == kind;
    } else {
      SubsetSame(Elements(ids), kind);
    }
  }

  function Records(info: Infos, ids: seq<int>): seq<Record>
    requires forall i :: 0 <= i < |ids| ==> ids[i] in info
  {
    seq(|ids|, i requires 0 <= i < |ids| => RecordOf(info[ids[i]]))
  }

  lemma RecordsSnoc(info: Infos, ids: seq<int>, id: int)
    requires id in info && forall i :: 0 <= i < |ids| ==> ids[i] in info
    ensures Records(info, ids + [id]) == Records(info, ids) + [RecordOf(info[id])]
  {
  }

  /** The first loop of the writer numbers the new entries. */
  method SaveNews(info: Infos, order: seq<int>, nNew: nat) returns (news: seq<Record>, numbers: map<int, int>, ghost ids: seq<int>)
    requires Distinct(order) && Elements(order) == info.Keys && nNew == |NewIds(info)|
    requires forall id :: id in info ==> (info[id].refCount != 0 <==> !info[id].inTried)
    ensures |ids| == nNew && Distinct(ids) && Elements(ids) == NewIds(info)
    ensures (forall i :: 0 <= i < |ids| ==> ids[i] in info) && news == Records(info, ids)
    ensures forall i :: 0 <= i < |ids| ==> ids[i] in numbers && numbers[ids[i]] == i
  {
    news, numbers, ids := [], map[], [];
    var n, i := 0, 0;
    while i < |order| && n != nNew
      invariant 0 <= i <= |order| && n == |ids|
      invariant Listed(info, NewIds(info), ids, order[..i]) && news == Records(info, ids)
      invariant forall id :: id in numbers ==> id in order[..i]
      invariant forall j :: 0 <= j < |ids| ==> ids[j] in numbers && numbers[ids[j]] == j
    {
      var id := order[i];
      assert id in order && id in Elements(order);
      assert order[..i + 1] == order[..i] + [id];
      assert id !in order[..i];
      numbers := numbers[id := n];
      if info[id].refCount != 0 {
        RecordsSnoc(info, ids, id);
        news := news + [RecordOf(info[id])];
        ids := ids + [id];
        n := n + 1;
      }
      i := i + 1;
    }
    assert i == |order| ==> order[..i] == order;
    ListedAll(info, NewIds(info), ids, order[..i], order);
  }

  /** The second loop of the writer. */
  method SaveTrieds(info: Infos, order: seq<int>, nTried: nat) returns (trieds: seq<Record>, ghost ids: seq<int>)
    requires Distinct(order) && Elements(order) == info.Keys && nTried == |TriedIds(info)|
    ensures |ids| == nTried && Distinct(ids) && Elements(ids) == TriedIds(info)
    ensures (forall i :: 0 <= i < |ids| ==> ids[i] in info) && trieds == Records(info, ids)
  {
    trieds, ids := [], [];
    var n, i := 0, 0;
    while i < |order| && n != nTried
      invariant 0 <= i <= |order| && n == |ids|
      invariant Listed(info, TriedIds(info), ids, order[..i]) && trieds == Records(info, ids)
    {
      var id := order[i];
      assert id in order && id in Elements(order);
      assert order[..i + 1] == order[..i] + [id];
      assert id !in order[..i];
      if info[id].inTried {
        RecordsSnoc(info, ids, id);
        trieds := trieds + [RecordOf(info[id])];
        ids := ids + [id];
        n := n + 1;
      }
      i := i + 1;
    }
    assert i == |order| ==> order[..i] == order;
    ListedAll(info, TriedIds(info), ids, order[..i], order);
  }

  /** A row holds exactly the numbers of the bucket's entries. */
  ghost predicate RowOf(row: seq<int>, bucket: set<int>, ids: seq<int>) {
    && Distinct(row) && |row| == |bucket|
    && (forall i :: i in row ==> 0 <= i < |ids|)
    && (forall i :: 0 <= i < |ids| ==> (i in row <==> ids[i] in bucket))
  }

  method SaveRow(bucket: set<int>, numbers: map<int, int>, ghost ids: seq<int>) returns (row: seq<int>)
    requires Distinct(ids) && forall i :: 0 <= i < |ids| ==> ids[i] in numbers && numbers[ids[i]] == i
    requires forall id :: id in bucket ==> id in ids
    ensures RowOf(row, bucket, ids)
  {
    var members := InOrder(bucket);
    row := [];
    for n := 0 to |members|
      invariant |row| == n
      invariant forall m :: 0 <= m < n ==> 0 <= row[m] < |ids| && ids[row[m]] == members[m]
    {
      var id := members[n];
      assert id in members && id in ids;
      ghost var i :| 0 <= i < |ids| && ids[i] == id;
      row := row + [numbers[id]];
    }
    forall i | 0 <= i < |ids|
      ensures i in row <==> ids[i] in bucket
    {
      var id := ids[i];
      if id in bucket {
        assert id in members;
        var m :| 0 <= m < |members| && members[m] == id;
        assert row[m] == i;
      }
      if i in row {
        var m :| 0 <= m < |row| && row[m] == i;
        assert members[m] in members;
      }
    }
  }

  /** The last loop of the writer. */
  method SaveTable(news: seq<set<int>>, numbers: map<int, int>, ghost ids: seq<int>) returns (table: seq<seq<int>>)
    requires Distinct(ids) && forall i :: 0 <= i < |ids| ==> ids[i] in numbers && numbers[ids[i]] == i
    requires forall b, id :: 0 <= b < |news| && id in news[b] ==> id in ids
    ensures |table| == |news| && forall b :: 0 <= b < |news| ==> RowOf(table[b], news[b], ids)
  {
    hide RowOf;
    table := [];
    for b := 0 to |news|
      invariant |table| == b && forall c :: 0 <= c < b ==> RowOf(table[c], news[c], ids)
    {
      var row := SaveRow(news[b], numbers, ids);
      table := table + [row];
    }
  }

  // ----- what a consistent manager writes is well formed

  ghost predicate SavedFrom(s: Saved, info: Infos, news: seq<set<int>>, newIds: seq<int>, triedIds: seq<int>) {
    && Distinct(newIds) && Elements(newIds) == NewIds(info)
    && Distinct(triedIds) && Elements(triedIds) == TriedIds(info)
    && (forall i :: 0 <= i < |newIds| ==> newIds[i] in info)
    && (forall i :: 0 <= i < |triedIds| ==> triedIds[i] in info)
    && s.news == Records(info, newIds) && s.trieds == Records(info, triedIds)
    && |s.table| == |news| && (forall b :: 0 <= b < |news| ==> RowOf(s.table[b], news[b], newIds))
  }

  /** The old id of the entry that gets number i. */
  function OldId(newIds: seq<int>, triedIds: seq<int>, i: nat): int
    requires i < |newIds| + |triedIds|
  {
    if i < |newIds| then newIds[i] else triedIds[i - |newIds|]
  }

  lemma OldIdFacts(s: Saved, info: Infos, news: seq<set<int>>, newIds: seq<int>, triedIds: seq<int>, i: nat)
    requires SavedFrom(s, info, news, newIds, triedIds) && i < |newIds| + |triedIds|
    ensures |s.news| == |newIds| && |s.trieds| == |triedIds|
    ensures var id := OldId(newIds, triedIds, i);
            id in info && (info[id].inTried <==> i >= |newIds|) && NetAt(s, i) == info[id].service.net
  {
    var id := OldId(newIds, triedIds, i);
    if i < |newIds| { assert id in newIds && id in Elements(newIds); } else { assert id in triedIds && id in Elements(triedIds); }
  }

  lemma OldIdsDiffer(s: Saved, info: Infos, news: seq<set<int>>, newIds: seq<int>, triedIds: seq<int>, i: nat, j: nat)
    requires SavedFrom(s, info, news, newIds, triedIds) && i < j < |newIds| + |triedIds|
    ensures OldId(newIds, triedIds, i) != OldId(newIds, triedIds, j)
  {
    OldIdFacts(s, info, news, newIds, triedIds, i);
    OldIdFacts(s, info, news, newIds, triedIds, j);
  }

  lemma NetsDiffer(s: Saved, info: Infos, addr: map<NetAddr, int>, random: seq<int>, nextId: int, news: seq<set<int>>,
                   newIds: seq<int>, triedIds: seq<int>, i: nat, j: nat)
    requires SavedFrom(s, info, news, newIds, triedIds) && IndexOk(info, addr, random, nextId)
    requires i < j < |newIds| + |triedIds|
    ensures |s.news| == |newIds| && |s.trieds| == |triedIds| && NetAt(s, i) != NetAt(s, j)
  {
    hide SavedFrom;
    OldIdFacts(s, info, news, newIds, triedIds, i);
    OldIdFacts(s, info, news, newIds, triedIds, j);
    OldIdsDiffer(s, info, news, newIds, triedIds, i, j);
    assert AddrOk(info, addr, OldId(newIds, triedIds, i)) && AddrOk(info, addr, OldId(newIds, triedIds, j));
  }

  ghost function HomedIds(info: Infos, home: Service -> nat, ids: seq<int>, k: nat, n: nat): set<int>
    requires n <= |ids| && forall i :: 0 <= i < |ids| ==> ids[i] in info
  {
    set j: int | 0 <= j < n && home(info[ids[j]].service) == k :: ids[j]
  }

  lemma HomedIdsNext(info: Infos, home: Service -> nat, ids: seq<int>, k: nat, n: nat)
    requires Distinct(ids) && n < |ids| && forall i :: 0 <= i < |ids| ==> ids[i] in info
    ensures ids[n] !in HomedIds(info, home, ids, k, n)
    ensures HomedIds(info, home, ids, k, n + 1) ==
            HomedIds(info, home, ids, k, n) + if home(info[ids[n]].service) == k then {ids[n]} else {}
  {
    var before, after := HomedIds(info, home, ids, k, n), HomedIds(info, home, ids, k, n + 1);
    forall id | id in after && id !in before ensures id == ids[n] && home(info[ids[n]].service) == k {
      var j: int :| 0 <= j < n + 1 && home(info[ids[j]].service) == k && ids[j] == id;
      assert j == n;
    }
    if home(info[ids[n]].service) == k { assert ids[n] in after; }
    forall id | id in before ensures id in after { }
  }

  lemma {:induction false} HomedSizes(s: Saved, info: Infos, home: Service -> nat, ids: seq<int>, k: nat, n: nat)
    requires Distinct(ids) && n <= |ids| == |s.trieds| && forall i :: 0 <= i < |ids| ==> ids[i] in info
    requires s.trieds == Records(info, ids)
    ensures |Homed(s, home, k, n)| == |HomedIds(info, home, ids, k, n)|
  {
    hide Homed, HomedIds;
    if n > 0 {
      HomedSizes(s, info, home, ids, k, n - 1);
      HomedNext(s, home, k, n - 1);
      HomedIdsNext(info, home, ids, k, n - 1);
    } else {
      NoneHomed(s, info, home, ids, k);
    }
  }

  lemma NoneHomed(s: Saved, info: Infos, home: Service -> nat, ids: seq<int>, k: nat)
    requires forall i :: 0 <= i < |ids| ==> ids[i] in info
    ensures Homed(s, home, k, 0) == {} && HomedIds(info, home, ids, k, 0) == {}
  {
  }

  lemma HomedBound(s: Saved, info: Infos, tried: seq<seq<int>>, home: Service -> nat, ids: seq<int>, k: nat)
    requires TriedOk(info, tried, home) && Distinct(ids) && Elements(ids) == TriedIds(info)
    requires (forall i :: 0 <= i < |ids| ==> ids[i] in info) && s.trieds == Records(info, ids)
    ensures |Homed(s, home, k, |s.trieds|)| <= TRIED_BUCKET_SIZE
  {
    HomedSizes(s, info, home, ids, k, |ids|);
    var homed := HomedIds(info, home, ids, k, |ids|);
    forall id | id in homed
      ensures k < |tried| && id in tried[k]
    {
      var j :| 0 <= j < |ids| && ids[j] == id && home(info[ids[j]].service) == k;
      assert id in ids && id in Elements(ids);
      assert TriedHome(info, tried, home, id);
    }
    if k < |tried| {
      ElementsSize(tried[k]);
      SubsetSize(homed, Elements(tried[k]));
    } else {
      SubsetSize(homed, {});
    }
  }

  lemma {:induction false} SameCounts(table: seq<seq<int>>, news: seq<set<int>>, ids: seq<int>, i: nat)
    requires |table| == |news| && i < |ids| && forall b :: 0 <= b < |news| ==> RowOf(table[b], news[b], ids)
    ensures Count(Rows(table), i) == Count(news, ids[i])
  {
    if table != [] {
      var n := |table| - 1;
      assert Rows(table)[..n] == Rows(table[..n]);
      SameCounts(table[..n], news[..n], ids, i);
      assert RowOf(table[n], news[n], ids);
    }
  }

  lemma WritesWell(s: Saved, info: Infos, addr: map<NetAddr, int>, random: seq<int>, nextId: int, news: seq<set<int>>,
                   tried: seq<seq<int>>, home: Service -> nat, newIds: seq<int>, triedIds: seq<int>)
    requires IndexOk(info, addr, random, nextId) && NewOk(info, news, -1) && TriedOk(info, tried, home) && TimesOk(info)
    requires SavedFrom(s, info, news, newIds, triedIds)
    ensures SavedOk(s, home)
  {
    hide IndexOk, TriedOk;
    assert |s.news| == |newIds| && |s.trieds| == |triedIds|;
    forall i, j | 0 <= i < j < |s.news| + |s.trieds| ensures NetAt(s, i) != NetAt(s, j) {
      NetsDiffer(s, info, addr, random, nextId, news, newIds, triedIds, i, j);
    }
    forall k: nat ensures |Homed(s, home, k, |s.trieds|)| <= TRIED_BUCKET_SIZE {
      HomedBound(s, info, tried, home, triedIds, k);
    }
    IdsNatural(info, addr, random, nextId);
    WritesRows(s, info, news, newIds);
    WritesTimes(s, info, newIds, triedIds);
  }

  lemma WritesTimes(s: Saved, info: Infos, newIds: seq<int>, triedIds: seq<int>)
    requires TimesOk(info) && Elements(triedIds) == TriedIds(info)
    requires (forall i :: 0 <= i < |newIds| ==> newIds[i] in info) && (forall i :: 0 <= i < |triedIds| ==> triedIds[i] in info)
    requires s.news == Records(info, newIds) && s.trieds == Records(info, triedIds)
    ensures forall i :: 0 <= i < |s.news| ==> s.news[i].lastSuccess >= 0
    ensures forall i :: 0 <= i < |s.trieds| ==> s.trieds[i].lastSuccess > 0
  {
    forall i | 0 <= i < |s.news| ensures s.news[i].lastSuccess >= 0 {
      var id := newIds[i];
      assert s.news[i] == RecordOf(info[id]) && id in info && info[id].lastSuccess >= 0;
    }
    forall i | 0 <= i < |s.trieds| ensures s.trieds[i].lastSuccess > 0 {
      var id := triedIds[i];
      assert id in triedIds && id in Elements(triedIds);
    }
  }

  lemma WritesRows(s: Saved, info: Infos, news: seq<set<int>>, newIds: seq<int>)
    requires NewOk(info, news, -1) && -1 !in info && Elements(newIds) == NewIds(info) && |s.news| == |newIds|
    requires |s.table| == |news| && forall b :: 0 <= b < |news| ==> RowOf(s.table[b], news[b], newIds)
    ensures |s.table| == NEW_BUCKET_COUNT
    ensures forall b :: 0 <= b < |s.table| ==> |s.table[b]| <= NEW_BUCKET_SIZE && Distinct(s.table[b])
    ensures forall b, i :: 0 <= b < |s.table| && i in s.table[b] ==> 0 <= i < |s.news|
    ensures forall i :: 0 <= i < |s.news| ==> 1 <= Count(Rows(s.table), i) <= NEW_BUCKETS_PER_ADDRESS
  {
    forall b | 0 <= b < |s.table|
      ensures |s.table[b]| <= NEW_BUCKET_SIZE && Distinct(s.table[b])
      ensures forall i :: i in s.table[b] ==> 0 <= i < |s.news|
    {
      assert RowOf(s.table[b], news[b], newIds) && BucketOk(info, news[b]);
    }
    forall i | 0 <= i < |s.news|
      ensures 1 <= Count(Rows(s.table), i) <= NEW_BUCKETS_PER_ADDRESS
    {
      SameCounts(s.table, news, newIds, i);
      var id := newIds[i];
      assert id in newIds && id in Elements(newIds);
      assert RefsOk(info, news, -1, id);
    }
  }

  // ----- the round trip

  /** The same tables under new ids: `was[i]` is the old id of entry i. */
  ghost predicate Renumbered(m: Manager, copy: Manager, was: seq<int>)
    reads m, copy
  {
    && Distinct(was) && Elements(was) == m.mapInfo.Keys
    && (forall i :: i in copy.mapInfo <==> 0 <= i < |was|)
    && (forall i :: 0 <= i < |was| ==> was[i] in m.mapInfo && SameEntry(m.mapInfo[was[i]], copy.mapInfo[i]))
    && |copy.vvNew| == |m.vvNew| && |copy.vvTried| == |m.vvTried|
    && (forall b, i :: 0 <= b < |m.vvNew| && 0 <= i < |was| ==> (i in copy.vvNew[b] <==> was[i] in m.vvNew[b]))
    && (forall k, i :: 0 <= k < |m.vvTried| && 0 <= i < |was| ==> (i in copy.vvTried[k] <==> was[i] in m.vvTried[k]))
    && copy.nNew == m.nNew && copy.nTried == m.nTried
  }

  /** The copy of an entry: only the time of the last attempt is forgotten. */
  predicate SameEntry(a: AddrInfo, b: AddrInfo) {
    && b.service == a.service && b.source == a.source && b.services == a.services && b.time == a.time
    && b.lastSuccess == a.lastSuccess && b.attempts == a.attempts && b.lastTry == 0
    && b.refCount == a.refCount && b.inTried == a.inTried
  }

  lemma SameElements(order: seq<int>, ids: set<int>)
    requires forall id :: id in order <==> id in ids
    ensures Elements(order) == ids
  {
    forall id | id in ids ensures id in Elements(order) { assert id in order; }
    forall id | id in Elements(order) ensures id in ids { assert id in order; }
  }

  /** Writes the manager. */
  method Save(m: Manager) returns (s: Saved, ghost newIds: seq<int>, ghost triedIds: seq<int>)
    requires m.Valid()
    ensures SavedFrom(s, m.mapInfo, m.vvNew, newIds, triedIds) && SavedOk(s, m.triedHome)
    ensures |newIds| == m.nNew && |triedIds| == m.nTried
  {
    var order := InOrder(m.mapInfo.Keys);
    forall id | id in m.mapInfo
      ensures m.mapInfo[id].refCount != 0 <==> !m.mapInfo[id].inTried
    {
      if m.mapInfo[id].inTried { assert TriedHome(m.mapInfo, m.vvTried, m.triedHome, id); } else { assert RefsOk(m.mapInfo, m.vvNew, -1, id); }
    }
    forall b, id | 0 <= b < |m.vvNew| && id in m.vvNew[b] ensures id in NewIds(m.mapInfo) { assert BucketOk(m.mapInfo, m.vvNew[b]); }
    SameElements(order, m.mapInfo.Keys);
    s, newIds, triedIds := SaveAll(m.mapInfo, order, m.vvNew, m.nNew, m.nTried);
    WritesWell(s, m.mapInfo, m.mapAddr, m.vRandom, m.nIdCount, m.vvNew, m.vvTried, m.triedHome, newIds, triedIds);
  }

  method SaveAll(info: Infos, order: seq<int>, news: seq<set<int>>, nNew: int, nTried: int)
    returns (s: Saved, ghost newIds: seq<int>, ghost triedIds: seq<int>)
    requires Distinct(order) && Elements(order) == info.Keys && CountsOk(info, nNew, nTried)
    requires forall id :: id in info ==> (info[id].refCount != 0 <==> !info[id].inTried)
    requires forall b, id :: 0 <= b < |news| && id in news[b] ==> id in NewIds(info)
    ensures SavedFrom(s, info, news, newIds, triedIds) && |newIds| == nNew && |triedIds| == nTried
  {
    hide RowOf, NewIds, TriedIds, Distinct, Records;
    var records, numbers, olds, trieds;
    records, numbers, newIds := SaveNews(info, order, nNew);
    trieds, triedIds := SaveTrieds(info, order, nTried);
    forall b, id | 0 <= b < |news| && id in news[b] ensures id in newIds { assert id in Elements(newIds); }
    olds := SaveTable(news, numbers, newIds);
    s := Saved(records, trieds, olds);
  }

  /** Reads a manager: every field, bucket and reference count is rebuilt. */
  method Load(s: Saved, triedHome: Service -> nat, newHome: (Service, NetAddr) -> nat) returns (m: Manager, nLost: int)
    requires forall r: Service :: triedHome(r) < TRIED_BUCKET_COUNT
    requires forall r: Service, a: NetAddr :: newHome(r, a) < NEW_BUCKET_COUNT
    requires SavedOk(s, triedHome)
    ensures fresh(m) && m.Valid() && nLost == 0 && m.triedHome == triedHome && m.newHome == newHome
    ensures LoadedInfo(s, m.mapInfo, |s.news| + |s.trieds|, |s.table|)
    ensures m.vvNew == Rows(s.table) && LoadedTried(s, m.vvTried, triedHome, |s.trieds|)
    ensures m.nNew == |s.news| && m.nTried == |s.trieds|
  {
    hide SavedOk, LoadedInfo, LoadedAddr, LoadedTried, IndexOk, NewOk, TriedOk, InOrderUpTo, CountsOk, TimesOk;
    var info, addr, random := LoadNews(s, triedHome);
    var tried, news;
    info, addr, random, tried, nLost := LoadTrieds(s, triedHome, info, addr, random);
    info, news := LoadTable(s, triedHome, info);
    LoadedIndex(s, info, addr, random);
    LoadedNew(s, triedHome, info);
    LoadedTriedOk(s, triedHome, info, tried);
    LoadedCounts(s, triedHome, info);
    m := new Manager(triedHome, newHome);
    m.nIdCount := |s.news| + |s.trieds|;
    m.mapInfo, m.mapAddr, m.vRandom := info, addr, random;
    m.vvTried, m.vvNew := tried, news;
    m.nNew, m.nTried := |s.news|, |s.trieds| - nLost;
  }

  lemma SameAgain(m: Manager, copy: Manager, s: Saved, newIds: seq<int>, triedIds: seq<int>)
    requires m.Valid() && copy.Valid() && copy.triedHome == m.triedHome
    requires SavedFrom(s, m.mapInfo, m.vvNew, newIds, triedIds) && |newIds| == m.nNew && |triedIds| == m.nTried
    requires LoadedInfo(s, copy.mapInfo, |s.news| + |s.trieds|, |s.table|)
    requires copy.vvNew == Rows(s.table) && LoadedTried(s, copy.vvTried, m.triedHome, |s.trieds|)
    requires copy.nNew == |s.news| && copy.nTried == |s.trieds|
    ensures Renumbered(m, copy, newIds + triedIds)
  {
    hide IndexOk, NewOk, TriedOk, CountsOk, TimesOk, LoadedTried, SavedFrom, LoadedInfo;
    var was := newIds + triedIds;
    SameSizes(s, m.mapInfo, m.vvNew, newIds, triedIds);
    TriedSize(m.mapInfo, m.vvTried, m.triedHome);
    TriedSize(copy.mapInfo, copy.vvTried, copy.triedHome);
    IdsNatural(m.mapInfo, m.mapAddr, m.vRandom, m.nIdCount);
    SameIds(s, m.mapInfo, m.vvNew, newIds, triedIds);
    LoadedKeys(s, copy.mapInfo);
    forall i | 0 <= i < |was|
      ensures was[i] in m.mapInfo && SameEntry(m.mapInfo[was[i]], copy.mapInfo[i])
    {
      SameEntries(s, m.mapInfo, m.vvNew, m.vvTried, m.triedHome, copy.mapInfo, newIds, triedIds, i);
    }
    forall b, i | 0 <= b < |m.vvNew| && 0 <= i < |was|
      ensures i in copy.vvNew[b] <==> was[i] in m.vvNew[b]
    {
      SameBuckets(s, m.mapInfo, m.vvNew, newIds, triedIds, b, i);
    }
    forall k, i | 0 <= k < |m.vvTried| && 0 <= i < |was|
      ensures i in copy.vvTried[k] <==> was[i] in m.vvTried[k]
    {
      SameTried(s, m.mapInfo, m.vvNew, m.vvTried, m.triedHome, copy.vvTried, newIds, triedIds, k, i);
    }
  }

  lemma SameSizes(s: Saved, info: Infos, news: seq<set<int>>, newIds: seq<int>, triedIds: seq<int>)
    requires SavedFrom(s, info, news, newIds, triedIds)
    ensures |s.news| == |newIds| && |s.trieds| == |triedIds| && |s.table| == |news|
  {
  }

  lemma LoadedKeys(s: Saved, info: Infos)
    requires LoadedInfo(s, info, |s.news| + |s.trieds|, |s.table|)
    ensures forall i :: i in info <==> 0 <= i < |s.news| + |s.trieds|
  {
  }

  lemma SameIds(s: Saved, info: Infos, news: seq<set<int>>, newIds: seq<int>, triedIds: seq<int>)
    requires SavedFrom(s, info, news, newIds, triedIds)
    ensures Distinct(newIds + triedIds) && Elements(newIds + triedIds) == info.Keys
  {
    hide SavedFrom;
    var was := newIds + triedIds;
    forall i, j | 0 <= i < j < |was| ensures was[i] != was[j] { OldIdsDiffer(s, info, news, newIds, triedIds, i, j); }
    forall id | id in was ensures id in info.Keys {
      var i :| 0 <= i < |was| && was[i] == id;
      OldIdFacts(s, info, news, newIds, triedIds, i);
    }
    forall id | id in info.Keys ensures id in was { EveryIdWritten(s, info, news, newIds, triedIds, id); }
    SameElements(was, info.Keys);
  }

  lemma EveryIdWritten(s: Saved, info: Infos, news: seq<set<int>>, newIds: seq<int>, triedIds: seq<int>, id: int)
    requires SavedFrom(s, info, news, newIds, triedIds) && id in info
    ensures id in newIds + triedIds
  {
    if info[id].inTried { assert id in TriedIds(info) && id in Elements(triedIds); } else { assert id in NewIds(info) && id in Elements(newIds); }
  }

  lemma SameEntries(s: Saved, info: Infos, news: seq<set<int>>, tried: seq<seq<int>>, home: Service -> nat, copy: Infos,
                    newIds: seq<int>, triedIds: seq<int>, i: nat)
    requires SavedFrom(s, info, news, newIds, triedIds) && LoadedInfo(s, copy, |s.news| + |s.trieds|, |s.table|)
    requires NewOk(info, news, -1) && TriedOk(info, tried, home) && -1 !in info && i < |newIds| + |triedIds|
    ensures var id := (newIds + triedIds)[i]; id in info && i in copy && SameEntry(info[id], copy[i])
  {
    var id := (newIds + triedIds)[i];
    assert id == OldId(newIds, triedIds, i);
    OldIdFacts(s, info, news, newIds, triedIds, i);
    assert copy[i] == Loaded(s, i, |s.table|);
    if i < |newIds| {
      SameCounts(s.table, news, newIds, i);
      assert Rows(s.table)[..|s.table|] == Rows(s.table);
      assert RefsOk(info, news, -1, id);
    } else {
      assert TriedHome(info, tried, home, id);
    }
  }

  lemma SameBuckets(s: Saved, info: Infos, news: seq<set<int>>, newIds: seq<int>, triedIds: seq<int>, b: nat, i: nat)
    requires SavedFrom(s, info, news, newIds, triedIds) && NewOk(info, news, -1) && b < |news| && i < |newIds| + |triedIds|
    ensures i in Rows(s.table)[b] <==> (newIds + triedIds)[i] in news[b]
  {
    OldIdFacts(s, info, news, newIds, triedIds, i);
    assert RowOf(s.table[b], news[b], newIds) && BucketOk(info, news[b]);
  }

  lemma SameTried(s: Saved, info: Infos, news: seq<set<int>>, tried: seq<seq<int>>, home: Service -> nat, copy: seq<seq<int>>,
                  newIds: seq<int>, triedIds: seq<int>, k: nat, i: nat)
    requires SavedFrom(s, info, news, newIds, triedIds) && TriedOk(info, tried, home)
    requires LoadedTried(s, copy, home, |s.trieds|) && k < |tried| && i < |newIds| + |triedIds|
    ensures k < |copy| && (i in copy[k] <==> (newIds + triedIds)[i] in tried[k])
  {
    OldIdFacts(s, info, news, newIds, triedIds, i);
    var id := (newIds + triedIds)[i];
    assert BucketLoaded(s, copy[k], home, k, |s.trieds|);
    if i >= |newIds| {
      assert s.trieds[i - |newIds|].service == info[id].service;
      assert TriedHome(info, tried, home, id);
    }
  }

  /** Writing a consistent manager and reading it back loses no entry and gives a consistent manager with the
      same entries in the same buckets; only the numbering, the random order, the order inside tried
      buckets and the unwritten time of the last attempt may differ. */
  method SaveAndLoad(m: Manager) returns (copy: Manager, nLost: int, ghost was: seq<int>)
    requires m.Valid()
    ensures fresh(copy) && copy.Valid() && nLost == 0 && Renumbered(m, copy, was)
    ensures copy.triedHome == m.triedHome && copy.newHome == m.newHome
  {
    hide IndexOk, NewOk, TriedOk, CountsOk, TimesOk, LoadedTried, LoadedInfo, SavedFrom, SavedOk, Renumbered;
    var s, newIds, triedIds := Save(m);
    copy, nLost := Load(s, m.triedHome, m.newHome);
    SameAgain(m, copy, s, newIds, triedIds);
    was := newIds + triedIds;
  }
}
