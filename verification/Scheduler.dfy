/** The miner's queue: transactions ready to be included, and those that wait for parents. */
module Scheduler {
  import opened Primitives

  /** TxPriority. */
  datatype Entry = Entry(tx: Hash, priority: real, feePerKb: real)

  /** COrphan. */
  datatype Orphan = Orphan(tx: Hash, waits: set<Hash>, priority: real, feePerKb: real)

  /** mapDependers: positions of the orphans that wait for an id; one for every input that names it. */
  type Dependers = map<Hash, seq<nat>>

  ghost predicate Registered(orphans: seq<Orphan>, dependers: Dependers, k: nat, h: Hash) {
    k < |orphans| && h in orphans[k].waits ==> h in dependers && k in dependers[h]
  }

  ghost predicate DependersOk(orphans: seq<Orphan>, dependers: Dependers) {
    && (forall h :: h in dependers ==> Within(dependers[h], |orphans|))
    && (forall k: nat, h :: Registered(orphans, dependers, k, h))
  }

  ghost predicate Within(list: seq<nat>, n: nat) {
    forall i :: 0 <= i < |list| ==> list[i] < n
  }

  /** The queue holds no transaction twice; `seen` are all that ever entered it. */
  ghost predicate QueueOk(queue: seq<Entry>, seen: set<Hash>) {
    && (forall i :: 0 <= i < |queue| ==> queue[i].tx in seen)
    && (forall i, j :: 0 <= i < j < |queue| ==> queue[i].tx != queue[j].tx)
  }

  ghost predicate WaitingOk(orphans: seq<Orphan>, seen: set<Hash>) {
    && (forall k :: 0 <= k < |orphans| && orphans[k].waits != {} ==> orphans[k].tx !in seen)
    && (forall k, l :: 0 <= k < l < |orphans| ==> orphans[k].tx != orphans[l].tx)
  }

  ghost function Waiting(orphans: seq<Orphan>): set<nat> {
    set k | 0 <= k < |orphans| && orphans[k].waits != {}
  }

  function AsEntry(o: Orphan): Entry {
    Entry(o.tx, o.priority, o.feePerKb)
  }

  function Relieved(o: Orphan, h: Hash): Orphan {
    o.(waits := o.waits - {h})
  }

  /** TxPriorityCompare: `a` comes after `b` in the queue, by fee rate or by priority, the other deciding ties. */
  predicate ComesAfter(byFee: bool, a: Entry, b: Entry) {
    if byFee then a.feePerKb < b.feePerKb || (a.feePerKb == b.feePerKb && a.priority < b.priority)
    else a.priority < b.priority || (a.priority == b.priority && a.feePerKb < b.feePerKb)
  }

  /** The heap's top: an entry that comes after no other. */
  method Top(queue: seq<Entry>, byFee: bool) returns (top: nat)
    requires queue != []
    ensures top < |queue| && forall i :: 0 <= i < |queue| ==> !ComesAfter(byFee, queue[top], queue[i])
  {
    top := 0;
    for i := 0 to |queue|
      invariant top < |queue| && forall j :: 0 <= j < i ==> !ComesAfter(byFee, queue[top], queue[j])
    {
      if ComesAfter(byFee, queue[top], queue[i]) {
        top := i;
      }
    }
  }

  lemma Pop(queue: seq<Entry>, seen: set<Hash>, k: nat)
    requires QueueOk(queue, seen) && k < |queue|
    ensures QueueOk(queue[..k] + queue[k + 1..], seen)
    ensures forall e :: e in queue[..k] + queue[k + 1..] ==> e in queue && e.tx != queue[k].tx
  {
    var rest := queue[..k] + queue[k + 1..];
    forall i | 0 <= i < |rest|
      ensures rest[i] == queue[if i < k then i else i + 1]
    {
    }
  }

  /** One orphan that waited for the last of its parents enters the queue. */
  lemma Release(orphans: seq<Orphan>, queue: seq<Entry>, seen: set<Hash>, k: nat, o: Orphan)
    requires k < |orphans| && o == orphans[k].(waits := {}) && orphans[k].waits != {}
    requires QueueOk(queue, seen) && WaitingOk(orphans, seen)
    ensures QueueOk(queue + [AsEntry(o)], seen + {o.tx}) && WaitingOk(orphans[k := o], seen + {o.tx})
    ensures |Waiting(orphans[k := o])| + 1 == |Waiting(orphans)|
  {
    assert Waiting(orphans) == Waiting(orphans[k := o]) + {k};
  }

  /** After one transaction was included, every orphan waits for it no more, and exactly those that waited
      for nothing else join the queue. */
  method Wake(orphans: seq<Orphan>, dependers: Dependers, queue: seq<Entry>, h: Hash, ghost seen: set<Hash>)
    returns (orphans': seq<Orphan>, queue': seq<Entry>, ghost seen': set<Hash>)
    requires DependersOk(orphans, dependers) && QueueOk(queue, seen) && WaitingOk(orphans, seen)
    ensures |orphans'| == |orphans| && forall k :: 0 <= k < |orphans| ==> orphans'[k] == Relieved(orphans[k], h)
    ensures DependersOk(orphans', dependers) && QueueOk(queue', seen') && WaitingOk(orphans', seen')
    ensures queue <= queue' && seen <= seen'
    ensures forall i :: |queue| <= i < |queue'| ==> Woken(orphans, orphans', queue'[i]) && queue'[i].tx !in seen
    ensures forall k :: 0 <= k < |orphans| && orphans[k].waits != {} && orphans'[k].waits == {} ==> AsEntry(orphans[k]) in queue'
    ensures forall h :: h in seen' ==> h in seen || exists k :: 0 <= k < |orphans| && orphans[k].tx == h
    ensures |Waiting(orphans')| + |queue'| == |Waiting(orphans)| + |queue|
  {
    hide DependersOk, QueueOk, WaitingOk, Waiting;
    orphans', queue', seen' := orphans, queue, seen;
    var list := if h in dependers then dependers[h] else [];
    ListIsWithin(orphans, dependers, h);
    for j := 0 to |list|
      invariant |orphans'| == |orphans|
      invariant forall k :: 0 <= k < |orphans| ==> Handled(orphans[k], orphans'[k], h, k, list[..j])
      invariant QueueOk(queue', seen') && WaitingOk(orphans', seen')
      invariant queue <= queue' && seen <= seen'
      invariant forall i :: |queue| <= i < |queue'| ==> Woken(orphans, orphans', queue'[i]) && queue'[i].tx !in seen
      invariant forall k :: 0 <= k < |orphans| && orphans[k].waits != {} && orphans'[k].waits == {} ==> AsEntry(orphans[k]) in queue'
      invariant forall h :: h in seen' ==> h in seen || exists k :: 0 <= k < |orphans| && orphans[k].tx == h
      invariant |Waiting(orphans')| + |queue'| == |Waiting(orphans)| + |queue|
    {
      var k := list[j];
      assert list[..j + 1] == list[..j] + [k];
      ghost var was := orphans';
      if orphans'[k].waits != {} {
        var o := Relieved(orphans'[k], h);
        if o.waits == {} {
          NotSeen(orphans', seen', k);
          Release(orphans', queue', seen', k, o);
          orphans' := orphans'[k := o];
          queue' := queue' + [AsEntry(o)];
          seen' := seen' + {o.tx};
          assert WokenAt(orphans, orphans', AsEntry(o), k);
        } else {
          Shrink(orphans', seen', k, o);
          orphans' := orphans'[k := o];
        }
        forall i | |queue| <= i < |queue'|
          ensures Woken(orphans, orphans', queue'[i])
        {
          if queue'[i] != AsEntry(o) || o.waits != {} {
            assert Woken(orphans, was, queue'[i]);
            var l :| WokenAt(orphans, was, queue'[i], l);
            assert WokenAt(orphans, orphans', queue'[i], l);
          }
        }
      }
    }
    AllRelieved(orphans, orphans', dependers, h, list);
  }

  ghost predicate WokenAt(orphans: seq<Orphan>, orphans': seq<Orphan>, e: Entry, k: nat) {
    k < |orphans| == |orphans'| && orphans[k].waits != {} && orphans'[k].waits == {} && e == AsEntry(orphans[k])
  }

  ghost predicate Woken(orphans: seq<Orphan>, orphans': seq<Orphan>, e: Entry) {
    exists k: nat :: WokenAt(orphans, orphans', e, k)
  }

  /** Relieved already, or untouched and still to come on the list. */
  ghost predicate Handled(o: Orphan, o': Orphan, h: Hash, k: nat, done: seq<nat>) {
    o' == Relieved(o, h) || (o' == o && k !in done)
  }

  lemma NotSeen(orphans: seq<Orphan>, seen: set<Hash>, k: nat)
    requires WaitingOk(orphans, seen) && k < |orphans| && orphans[k].waits != {}
    ensures orphans[k].tx !in seen
  {
  }

  lemma Shrink(orphans: seq<Orphan>, seen: set<Hash>, k: nat, o: Orphan)
    requires WaitingOk(orphans, seen) && k < |orphans| && orphans[k].waits != {} && o.waits != {} && o.tx == orphans[k].tx
    ensures WaitingOk(orphans[k := o], seen) && Waiting(orphans[k := o]) == Waiting(orphans)
  {
  }

  lemma ListIsWithin(orphans: seq<Orphan>, dependers: Dependers, h: Hash)
    requires DependersOk(orphans, dependers)
    ensures h in dependers ==> Within(dependers[h], |orphans|)
  {
  }

  lemma AllRelieved(orphans: seq<Orphan>, orphans': seq<Orphan>, dependers: Dependers, h: Hash, list: seq<nat>)
    requires DependersOk(orphans, dependers) && |orphans'| == |orphans|
    requires list == if h in dependers then dependers[h] else []
    requires forall k :: 0 <= k < |orphans| ==> Handled(orphans[k], orphans'[k], h, k, list[..|list|])
    ensures forall k :: 0 <= k < |orphans| ==> orphans'[k] == Relieved(orphans[k], h)
    ensures DependersOk(orphans', dependers)
  {
    assert list[..|list|] == list;
    forall k | 0 <= k < |orphans|
      ensures orphans'[k] == Relieved(orphans[k], h)
    {
      assert Handled(orphans[k], orphans'[k], h, k, list[..|list|]) && Registered(orphans, dependers, k, h);
      if h !in orphans[k].waits {
        assert orphans[k].waits - {h} == orphans[k].waits;
      }
    }
    forall k: nat, x
      ensures Registered(orphans', dependers, k, x)
    {
      assert Registered(orphans, dependers, k, x);
    }
  }

  /** A new orphan, registered under each id it waits for. */
  lemma Enlist(orphans: seq<Orphan>, dependers: Dependers, o: Orphan, dependers': Dependers)
    requires DependersOk(orphans, dependers) && Grown(dependers, dependers', |orphans|, o.waits)
    ensures DependersOk(orphans + [o], dependers')
  {
    forall h | h in dependers'
      ensures Within(dependers'[h], |orphans| + 1)
    {
      forall i | 0 <= i < |dependers'[h]|
        ensures dependers'[h][i] < |orphans| + 1
      {
        var x := dependers'[h][i];
        assert x in dependers'[h];
        if x != |orphans| {
          assert x in dependers[h] && Within(dependers[h], |orphans|);
        }
      }
    }
    forall k: nat, h
      ensures Registered(orphans + [o], dependers', k, h)
    {
      assert Registered(orphans, dependers, k, h);
    }
  }

  /** Position k was added under each of the ids, and nothing else changed. */
  ghost predicate Grown(dependers: Dependers, dependers': Dependers, k: nat, ids: set<Hash>) {
    && (forall h :: h in dependers ==> h in dependers' && forall x :: x in dependers[h] ==> x in dependers'[h])
    && (forall h :: h in ids ==> h in dependers' && k in dependers'[h])
    && (forall h :: h in dependers' ==> forall x :: x in dependers'[h] ==> x == k || (h in dependers && x in dependers[h]))
    && (ids == {} ==> dependers' == dependers)
  }
}
