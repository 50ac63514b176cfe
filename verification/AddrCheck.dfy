/** Check_: the address manager's own consistency check, what it means, and that it never complains. */
module AddrCheck {
  import opened AddrTables
  import opened AddrMan

  // ----- what the check means

  ghost predicate EntryFine(info: Infos, addr: map<NetAddr, int>, random: seq<int>, id: int)
    requires id in info
  {
    var e := info[id];
    && (if e.inTried then e.lastSuccess != 0 && e.refCount == 0 else 1 <= e.refCount <= NEW_BUCKETS_PER_ADDRESS)
    && (if e.service.net in addr then addr[e.service.net] else 0) == id
    && RandomOk(info, random, id)
    && e.lastTry >= 0 && e.lastSuccess >= 0
  }

  ghost predicate EntriesFine(info: Infos, addr: map<NetAddr, int>, random: seq<int>) {
    forall id :: id in info ==> EntryFine(info, addr, random, id)
  }

  /** All buckets of the tried table, one after the other. */
  function Flat(table: seq<seq<int>>): seq<int> {
    if table == [] then [] else Flat(table[..|table| - 1]) + table[|table| - 1]
  }

  /** The buckets together hold exactly these ids, each once. */
  ghost predicate TriedFine(table: seq<seq<int>>, ids: set<int>) {
    Distinct(Flat(table)) && forall id :: id in Flat(table) <==> id in ids
  }

  /** Every id is in as many buckets as its reference count says, and no others are in any. */
  ghost predicate NewFine(table: seq<set<int>>, refs: map<int, int>) {
    && (forall b, id :: 0 <= b < |table| && id in table[b] ==> id in refs)
    && (forall id :: id in refs ==> Count(table, id) == refs[id])
  }

  ghost function RefsOf(info: Infos): map<int, int> {
    map id | id in NewIds(info) :: info[id].refCount
  }

  ghost predicate Consistent(m: Manager)
    reads m
  {
    && |m.vRandom| == m.nTried + m.nNew
    && EntriesFine(m.mapInfo, m.mapAddr, m.vRandom)
    && CountsOk(m.mapInfo, m.nNew, m.nTried)
    && TriedFine(m.vvTried, TriedIds(m.mapInfo))
    && NewFine(m.vvNew, RefsOf(m.mapInfo))
  }

  // ----- the check itself

  /** The first loop. */
  method CheckEntries(info: Infos, addr: map<NetAddr, int>, random: seq<int>) returns (r: int, setTried: set<int>, mapNew: map<int, int>)
    ensures r == 0 <==> EntriesFine(info, addr, random)
    ensures r == 0 ==> setTried == TriedIds(info) && mapNew == RefsOf(info)
  {
    r, setTried, mapNew := 0, {}, map[];
    var order := InOrder(info.Keys);
    for i := 0 to |order|
      invariant forall j :: 0 <= j < i ==> order[j] in info && EntryFine(info, addr, random, order[j])
      invariant forall id :: id in setTried <==> id in order[..i] && info[id].inTried
      invariant forall id :: id in mapNew <==> id in order[..i] && !info[id].inTried
      invariant forall id :: id in mapNew ==> mapNew[id] == info[id].refCount
    {
      var n := order[i];
      assert n in order;
      var e := info[n];
      assert order[..i + 1] == order[..i] + [n];
      r := CheckEntry(info, addr, random, n);
      if r != 0 {
        return;
      }
      if e.inTried {
        setTried := setTried + {n};
      } else {
        mapNew := mapNew[n := e.refCount];
      }
    }
    assert order[..|order|] == order;
    forall id | id in info
      ensures EntryFine(info, addr, random, id)
    {
      assert id in order;
    }
    SameTriedSet(info, order, setTried);
    SameRefs(info, order, mapNew);
  }

  lemma SameTriedSet(info: Infos, order: seq<int>, setTried: set<int>)
    requires (forall id :: id in order <==> id in info) && forall id :: id in setTried <==> id in order && info[id].inTried
    ensures setTried == TriedIds(info)
  {
    forall id
      ensures id in setTried <==> id in TriedIds(info)
    {
      assert id in order <==> id in info;
    }
  }

  lemma SameRefs(info: Infos, order: seq<int>, mapNew: map<int, int>)
    requires (forall id :: id in order <==> id in info) && (forall id :: id in mapNew <==> id in order && !info[id].inTried)
    requires forall id :: id in mapNew ==> mapNew[id] == info[id].refCount
    ensures mapNew == RefsOf(info)
  {
    forall id
      ensures id in mapNew <==> id in RefsOf(info)
    {
      assert id in order <==> id in info;
    }
    assert mapNew.Keys == RefsOf(info).Keys;
    forall id | id in mapNew
      ensures mapNew[id] == RefsOf(info)[id]
    {
      assert mapNew[id] == info[id].refCount;
    }
  }

  method CheckEntry(info: Infos, addr: map<NetAddr, int>, random: seq<int>, n: int) returns (r: int)
    requires n in info
    ensures r == 0 <==> EntryFine(info, addr, random, n)
  {
    var e := info[n];
    if e.inTried {
      if e.lastSuccess == 0 {
        return -1;
      }
      if e.refCount != 0 {
        return -2;
      }
    } else {
      if e.refCount < 0 || e.refCount > NEW_BUCKETS_PER_ADDRESS {
        return -3;
      }
      if e.refCount == 0 {
        return -4;
      }
    }
    if (if e.service.net in addr then addr[e.service.net] else 0) != n {
      return -5;
    }
    if e.randomPos < 0 || e.randomPos >= |random| || random[e.randomPos] != n {
      return -14;
    }
    if e.lastTry < 0 {
      return -6;
    }
    if e.lastSuccess < 0 {
      return -8;
    }
    r := 0;
  }

  lemma {:induction false} FlatPrefix(table: seq<seq<int>>, n: nat)
    requires n <= |table|
    ensures Flat(table[..n]) <= Flat(table)
  {
    if n < |table| {
      var init := table[..|table| - 1];
      FlatPrefix(init, n);
      assert init[..n] == table[..n];
    } else {
      assert table[..n] == table;
    }
  }

  lemma FlatNext(table: seq<seq<int>>, n: nat, i: nat)
    requires n < |table| && i < |table[n]|
    ensures Flat(table[..n]) + table[n][..i + 1] <= Flat(table)
    ensures table[n][..i + 1] == table[n][..i] + [table[n][i]]
  {
    FlatPrefix(table, n + 1);
    assert table[..n + 1][..n] == table[..n];
    assert Flat(table[..n + 1]) == Flat(table[..n]) + table[n];
    assert Flat(table[..n]) + table[n][..i + 1] <= Flat(table[..n]) + table[n];
  }

  /** The second loop strikes out each tried id once. */
  method CheckTried(table: seq<seq<int>>, setTried: set<int>) returns (r: int, left: set<int>)
    ensures r == 0 <==> Distinct(Flat(table)) && forall id :: id in Flat(table) ==> id in setTried
    ensures r == 0 ==> forall id :: id in left <==> id in setTried && id !in Flat(table)
  {
    hide Flat;
    r, left := 0, setTried;
    ghost var seen: seq<int> := [];
    NothingFlat(table);
    for n := 0 to |table|
      invariant seen == Flat(table[..n]) && Distinct(seen)
      invariant forall id :: id in seen ==> id in setTried
      invariant forall id :: id in left <==> id in setTried && id !in seen
    {
      ghost var before := seen;
      for i := 0 to |table[n]|
        invariant seen == before + table[n][..i] && Distinct(seen)
        invariant forall id :: id in seen ==> id in setTried
        invariant forall id :: id in left <==> id in setTried && id !in seen
      {
        var x := table[n][i];
        FlatNext(table, n, i);
        assert before + table[n][..i + 1] == seen + [x];
        if x !in left {
          Bad(seen, x, Flat(table), setTried);
          return -11, left;
        }
        left := left - {x};
        seen := seen + [x];
      }
      assert table[n][..|table[n]|] == table[n];
      FlatSnoc(table, n);
    }
    assert table[..|table|] == table;
  }

  lemma NothingFlat(table: seq<seq<int>>)
    ensures Flat(table[..0]) == []
  {
  }

  lemma FlatSnoc(table: seq<seq<int>>, n: nat)
    requires n < |table|
    ensures Flat(table[..n + 1]) == Flat(table[..n]) + table[n]
  {
    assert table[..n + 1][..n] == table[..n];
  }

  lemma Bad(seen: seq<int>, x: int, all: seq<int>, ids: set<int>)
    requires seen + [x] <= all && (x in seen || x !in ids)
    ensures !(Distinct(all) && forall id :: id in all ==> id in ids)
  {
    assert all[|seen|] == x;
    if x in seen {
      var j :| 0 <= j < |seen| && seen[j] == x;
      assert all[j] == (seen + [x])[j] == x;
    } else {
      assert x in all;
    }
  }

  /** How many references are struck out so far: whole buckets, and those of the current one. */
  ghost function Struck(table: seq<set<int>>, n: nat, part: seq<int>, id: int): nat
    requires n <= |table|
  {
    Count(table[..n], id) + if id in part then 1 else 0
  }

  ghost predicate LeftOver(refs: map<int, int>, left: map<int, int>, table: seq<set<int>>, n: nat, part: seq<int>)
    requires n <= |table|
  {
    && (forall id :: id in left ==> id in refs && left[id] == refs[id] - Struck(table, n, part, id) && left[id] > 0)
    && (forall id :: id in refs && id !in left ==> refs[id] == Struck(table, n, part, id))
  }

  /** The third loop counts each reference down. */
  method CheckNew(table: seq<set<int>>, refs: map<int, int>) returns (r: int, left: map<int, int>)
    requires forall id :: id in refs ==> refs[id] > 0
    ensures r == 0 && left == map[] <==> NewFine(table, refs)
  {
    r, left := 0, refs;
    ghost var none: seq<int> := [];
    NothingStruck(table, refs);
    for n := 0 to |table|
      invariant LeftOver(refs, left, table, n, none)
      invariant forall b, id :: 0 <= b < n && id in table[b] ==> id in refs
    {
      r, left := CheckNewBucket(table, n, refs, left);
      if r != 0 {
        return;
      }
    }
    AllStruck(table, refs, left);
  }

  lemma NothingStruck(table: seq<set<int>>, refs: map<int, int>)
    requires forall id :: id in refs ==> refs[id] > 0
    ensures LeftOver(refs, refs, table, 0, [])
  {
  }

  lemma AllStruck(table: seq<set<int>>, refs: map<int, int>, left: map<int, int>)
    requires LeftOver(refs, left, table, |table|, []) && forall b, id :: 0 <= b < |table| && id in table[b] ==> id in refs
    ensures left == map[] <==> NewFine(table, refs)
  {
    assert table[..|table|] == table;
    forall id | id in refs
      ensures Struck(table, |table|, [], id) == Count(table, id)
    {
    }
    if NewFine(table, refs) {
      assert forall id :: id in left ==> false;
    }
  }

  method CheckNewBucket(table: seq<set<int>>, n: nat, refs: map<int, int>, left0: map<int, int>) returns (r: int, left: map<int, int>)
    requires n < |table| && LeftOver(refs, left0, table, n, [])
    ensures r == 0 ==> LeftOver(refs, left, table, n + 1, []) && forall id :: id in table[n] ==> id in refs
    ensures r != 0 ==> !NewFine(table, refs)
  {
    hide Count, LeftOver, NewFine;
    r, left := 0, left0;
    var bucket := InOrder(table[n]);
    assert bucket[..0] == [];
    for i := 0 to |bucket|
      invariant LeftOver(refs, left, table, n, bucket[..i])
      invariant forall j :: 0 <= j < i ==> bucket[j] in refs
    {
      var x := bucket[i];
      assert x in bucket && x !in bucket[..i] && x in table[n];
      assert bucket[..i + 1] == bucket[..i] + [x];
      if x !in left {
        TooMany(table, n, refs, left, bucket[..i], x);
        return -12, left;
      }
      StrikeOne(refs, left, table, n, bucket[..i], x);
      if left[x] - 1 == 0 {
        left := left - {x};
      } else {
        left := left[x := left[x] - 1];
      }
    }
    assert bucket[..|bucket|] == bucket;
    NextBucket(table, n, bucket, refs, left);
  }

  lemma StrikeOne(refs: map<int, int>, left: map<int, int>, table: seq<set<int>>, n: nat, part: seq<int>, x: int)
    requires n < |table| && LeftOver(refs, left, table, n, part) && x !in part && x in left
    ensures x in refs
    ensures LeftOver(refs, if left[x] - 1 == 0 then left - {x} else left[x := left[x] - 1], table, n, part + [x])
  {
    hide Count;
  }

  lemma TooMany(table: seq<set<int>>, n: nat, refs: map<int, int>, left: map<int, int>, part: seq<int>, x: int)
    requires n < |table| && x in table[n] && x !in part && LeftOver(refs, left, table, n, part) && x !in left
    ensures !NewFine(table, refs)
  {
    CountPrefix(table, n + 1, x);
    CountSnoc(table, n, x);
  }

  lemma NextBucket(table: seq<set<int>>, n: nat, bucket: seq<int>, refs: map<int, int>, left: map<int, int>)
    requires n < |table| && LeftOver(refs, left, table, n, bucket) && forall id :: id in bucket <==> id in table[n]
    ensures LeftOver(refs, left, table, n + 1, [])
  {
    hide Count;
    forall id | id in refs
      ensures Struck(table, n + 1, [], id) == Struck(table, n, bucket, id)
    {
      CountSnoc(table, n, id);
    }
  }

  /** Check_ returns zero exactly on consistent tables. */
  method Check(m: Manager) returns (r: int)
    ensures r == 0 <==> Consistent(m)
  {
    hide EntriesFine, NewFine, Flat, RefsOf;
    if |m.vRandom| != m.nTried + m.nNew {
      return -7;
    }
    var setTried, mapNew;
    r, setTried, mapNew := CheckEntries(m.mapInfo, m.mapAddr, m.vRandom);
    if r != 0 {
      return;
    }
    RefsPositive(m.mapInfo, m.mapAddr, m.vRandom);
    if |setTried| != m.nTried {
      return -9;
    }
    if |mapNew| != m.nNew {
      return -10;
    }
    var bad, leftTried := CheckTried(m.vvTried, setTried);
    if bad != 0 {
      return bad;
    }
    var leftNew;
    bad, leftNew := CheckNew(m.vvNew, mapNew);
    if bad != 0 {
      return bad;
    }
    NoneIsEmpty(leftTried);
    if |leftTried| != 0 {
      return -13;
    }
    if |leftNew| != 0 {
      return -15;
    }
    r := 0;
  }

  lemma NoneIsEmpty(s: set<int>)
    ensures |s| == 0 <==> forall id :: id !in s
  {
    if forall id :: id !in s {
      assert s == {};
    }
  }

  lemma RefsPositive(info: Infos, addr: map<NetAddr, int>, random: seq<int>)
    requires EntriesFine(info, addr, random)
    ensures forall id :: id in RefsOf(info) ==> RefsOf(info)[id] > 0
    ensures RefsOf(info).Keys == NewIds(info) && |RefsOf(info)| == |NewIds(info)|
  {
    forall id | id in RefsOf(info)
      ensures RefsOf(info)[id] > 0
    {
      assert EntryFine(info, addr, random, id);
    }
    assert RefsOf(info).Keys == NewIds(info);
  }

  // ----- what the operations keep is more than the check asks for

  /** Ids of different buckets differ, because each id has one home. */
  lemma {:induction false} HomesApart(info: Infos, table: seq<seq<int>>, home: Service -> nat, n: nat)
    requires TriedOk(info, table, home) && n <= |table|
    ensures Distinct(Flat(table[..n]))
    ensures forall id :: id in Flat(table[..n]) <==> id in info && info[id].inTried && home(info[id].service) < n
  {
    if n == 0 {
      assert table[..0] == [];
    } else {
      HomesApart(info, table, home, n - 1);
      FlatSnoc(table, n - 1);
      var a, b := Flat(table[..n - 1]), table[n - 1];
      forall id
        ensures id in a + b <==> id in info && info[id].inTried && home(info[id].service) < n
      {
        if id in info && info[id].inTried {
          assert TriedHome(info, table, home, id);
        }
        if id in b {
          assert id in info && home(info[id].service) == n - 1;
        }
      }
      JoinDistinct(a, b);
    }
  }

  lemma JoinDistinct(a: seq<int>, b: seq<int>)
    requires Distinct(a) && Distinct(b) && forall id :: id in b ==> id !in a
    ensures Distinct(a + b)
  {
    forall i, j | 0 <= i < j < |a + b|
      ensures (a + b)[i] != (a + b)[j]
    {
      if i < |a| <= j {
        assert b[j - |a|] in b && a[i] in a;
      }
    }
  }

  lemma {:induction false} AsManyAs(s: seq<int>, ids: set<int>)
    requires Distinct(s) && forall id :: id in s <==> id in ids
    ensures |s| == |ids|
  {
    if s == [] {
      NoneIsEmpty(ids);
    } else {
      var n := |s| - 1;
      assert s == s[..n] + [s[n]];
      AsManyAs(s[..n], ids - {s[n]});
      assert s[n] in ids;
    }
  }

  /** vRandom lists every entry once, so its length is the number of new and tried entries. */
  lemma RandomCounts(info: Infos, addr: map<NetAddr, int>, random: seq<int>, nextId: int)
    requires IndexOk(info, addr, random, nextId)
    ensures |random| == |NewIds(info)| + |TriedIds(info)|
  {
    forall id
      ensures id in random <==> id in info.Keys
    {
      if id in info {
        assert RandomOk(info, random, id);
      }
    }
    AsManyAs(random, info.Keys);
    assert info.Keys == NewIds(info) + TriedIds(info);
  }

  lemma RefsAgree(info: Infos, table: seq<set<int>>)
    requires NewOk(info, table, -1) && -1 !in info
    ensures NewFine(table, RefsOf(info))
  {
    forall id | id in RefsOf(info)
      ensures Count(table, id) == RefsOf(info)[id]
    {
      assert RefsOk(info, table, -1, id);
    }
    forall b, id | 0 <= b < |table| && id in table[b]
      ensures id in RefsOf(info)
    {
      assert BucketOk(info, table[b]);
    }
  }

  lemma TriedAgree(info: Infos, table: seq<seq<int>>, home: Service -> nat)
    requires TriedOk(info, table, home)
    ensures TriedFine(table, TriedIds(info))
  {
    HomesApart(info, table, home, |table|);
    assert table[..|table|] == table;
    forall id | id in TriedIds(info)
      ensures id in Flat(table)
    {
      assert TriedHome(info, table, home, id);
    }
  }

  lemma EntriesAgree(m: Manager)
    requires m.Valid()
    ensures EntriesFine(m.mapInfo, m.mapAddr, m.vRandom)
  {
    forall id | id in m.mapInfo
      ensures EntryFine(m.mapInfo, m.mapAddr, m.vRandom, id)
    {
      assert AddrOk(m.mapInfo, m.mapAddr, id) && RandomOk(m.mapInfo, m.vRandom, id);
      if m.mapInfo[id].inTried {
        assert TriedHome(m.mapInfo, m.vvTried, m.triedHome, id);
      } else {
        assert RefsOk(m.mapInfo, m.vvNew, -1, id);
      }
    }
  }

  /** Every reachable manager passes Check_. */
  lemma ValidIsConsistent(m: Manager)
    requires m.Valid()
    ensures Consistent(m)
  {
    hide EntriesFine, TriedFine, NewFine, NewOk, TriedOk;
    IdsNatural(m.mapInfo, m.mapAddr, m.vRandom, m.nIdCount);
    RandomCounts(m.mapInfo, m.mapAddr, m.vRandom, m.nIdCount);
    EntriesAgree(m);
    TriedAgree(m.mapInfo, m.vvTried, m.triedHome);
    RefsAgree(m.mapInfo, m.vvNew);
  }
}
