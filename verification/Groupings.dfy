/** CWallet::GetAddressGroupings: merging overlapping groups of addresses into connected components. */
module Groupings {

  /** An address book destination; only its identity matters. */
  datatype Destination = Destination(script: string)

  /** A group on the heap: the source keeps pointers to them. */
  class Group {
    var members: set<Destination>

    constructor (grouping: set<Destination>)
      ensures members == grouping
    {
      members := grouping;
    }
  }

  // ----- what the components are

  /** A walk through input groupings, each sharing an address with the one before. */
  ghost predicate IsWalk(gs: seq<set<Destination>>, walk: seq<nat>) {
    && walk != []
    && (forall i :: 0 <= i < |walk| ==> walk[i] < |gs|)
    && (forall i :: 0 < i < |walk| ==> gs[walk[i - 1]] * gs[walk[i]] != {})
  }

  ghost predicate Connects(gs: seq<set<Destination>>, walk: seq<nat>, a: Destination, b: Destination) {
    IsWalk(gs, walk) && a in gs[walk[0]] && b in gs[walk[|walk| - 1]]
  }

  ghost predicate Linked(gs: seq<set<Destination>>, a: Destination, b: Destination) {
    exists walk :: Connects(gs, walk, a, b)
  }

  lemma LinkedInOne(gs: seq<set<Destination>>, i: nat, a: Destination, b: Destination)
    requires i < |gs| && a in gs[i] && b in gs[i]
    ensures Linked(gs, a, b)
  {
    assert Connects(gs, [i], a, b);
  }

  lemma LinkedTrans(gs: seq<set<Destination>>, a: Destination, b: Destination, c: Destination)
    requires Linked(gs, a, b) && Linked(gs, b, c)
    ensures Linked(gs, a, c)
  {
    var v :| Connects(gs, v, a, b);
    var w :| Connects(gs, w, b, c);
    var walk := v + w;
    forall i | 0 < i < |walk|
      ensures gs[walk[i - 1]] * gs[walk[i]] != {}
    {
      if i == |v| {
        assert b in gs[walk[i - 1]] * gs[walk[i]];
      }
    }
    assert Connects(gs, walk, a, c);
  }

  lemma LinkedSym(gs: seq<set<Destination>>, a: Destination, b: Destination)
    requires Linked(gs, a, b)
    ensures Linked(gs, b, a)
  {
    var v :| Connects(gs, v, a, b);
    var w := seq(|v|, i requires 0 <= i < |v| => v[|v| - 1 - i]);
    forall i | 0 < i < |w|
      ensures gs[w[i - 1]] * gs[w[i]] != {}
    {
      var j := |v| - i;
      assert gs[v[j - 1]] * gs[v[j]] != {};
      assert gs[w[i - 1]] * gs[w[i]] == gs[v[j - 1]] * gs[v[j]];
    }
    assert Connects(gs, w, b, a);
  }

  lemma LinkedGrows(gs: seq<set<Destination>>, more: seq<set<Destination>>, a: Destination, b: Destination)
    requires Linked(gs, a, b) && gs <= more
    ensures Linked(more, a, b)
  {
    var v :| Connects(gs, v, a, b);
    assert Connects(more, v, a, b);
  }

  // ----- what the merge loop keeps

  ghost predicate Disjoint(groups: set<Group>)
    reads groups
  {
    forall g, h :: g in groups && h in groups && g != h ==> g.members !! h.members
  }

  /** One group holds the whole set; for an empty set, an empty group. */
  ghost predicate Held(groups: set<Group>, s: set<Destination>)
    reads groups
  {
    exists g :: g in groups && s <= g.members && (s == {} ==> g.members == {})
  }

  ghost predicate IsGroup(groups: set<Group>, s: set<Destination>)
    reads groups
  {
    exists g :: g in groups && g.members == s
  }

  /** Each processed grouping lies inside one group. */
  ghost predicate Covers(groups: set<Group>, gs: seq<set<Destination>>)
    reads groups
  {
    forall i :: 0 <= i < |gs| ==> Held(groups, gs[i])
  }

  ghost predicate AllLinked(gs: seq<set<Destination>>, members: set<Destination>) {
    forall a, b :: a in members && b in members ==> Linked(gs, a, b)
  }

  ghost predicate Tight(groups: set<Group>, gs: seq<set<Destination>>)
    reads groups
  {
    forall g :: g in groups ==> AllLinked(gs, g.members) && (g.members == {} ==> {} in gs)
  }

  /** The address map points at the one group that holds the address, never at a deleted one. */
  ghost predicate MapOk(groups: set<Group>, setmap: map<Destination, Group>)
    reads groups
  {
    && (forall a :: a in setmap ==> setmap[a] in groups && a in setmap[a].members)
    && (forall g, a :: g in groups && a in g.members ==> a in setmap && setmap[a] == g)
  }

  /** The groups hit by a grouping. */
  method Hits(grouping: set<Destination>, setmap: map<Destination, Group>) returns (hits: set<Group>)
    ensures forall g :: g in hits <==> exists a :: a in grouping && a in setmap && setmap[a] == g
  {
    hits := {};
    var todo := grouping;
    while todo != {}
      invariant todo <= grouping
      invariant forall g :: g in hits <==> exists a :: a in grouping - todo && a in setmap && setmap[a] == g
    {
      var a :| a in todo;
      ghost var seen := hits;
      if a in setmap {
        hits := hits + {setmap[a]};
      }
      forall g | g in hits
        ensures exists b :: b in grouping - (todo - {a}) && b in setmap && setmap[b] == g
      {
        if g in seen {
          var b :| b in grouping - todo && b in setmap && setmap[b] == g;
          assert b in grouping - (todo - {a});
        } else {
          assert a in grouping - (todo - {a}) && setmap[a] == g;
        }
      }
      todo := todo - {a};
    }
    assert grouping - todo == grouping;
  }

  ghost function Union(base: set<Destination>, hits: set<Group>): set<Destination>
    reads hits
  {
    base + set g, a | g in hits && a in g.members :: a
  }

  /** Merges the hit groups into the new one and drops them. */
  method Absorb(merged: Group, hits: set<Group>, groups: set<Group>) returns (rest: set<Group>)
    requires merged !in hits
    modifies merged
    ensures merged.members == old(Union(merged.members, hits))
    ensures rest == groups - hits
  {
    rest := groups;
    var todo := hits;
    while todo != {}
      invariant todo <= hits
      invariant merged.members == Union(old(merged.members), hits - todo)
      invariant rest == groups - (hits - todo)
    {
      var hit :| hit in todo;
      merged.members := merged.members + hit.members;
      rest := rest - {hit};
      todo := todo - {hit};
    }
    assert hits - todo == hits;
  }

  /** One round keeps the groups apart, and puts the address map right. */
  lemma RoundKeepsMap(groups: set<Group>, setmap: map<Destination, Group>, grouping: set<Destination>,
                      hits: set<Group>, merged: Group, setmap': map<Destination, Group>)
    requires MapOk(groups, setmap) && Disjoint(groups) && merged !in groups
    requires forall g :: g in hits <==> exists a :: a in grouping && a in setmap && setmap[a] == g
    requires merged.members == Union(grouping, hits)
    requires setmap'.Keys == setmap.Keys + merged.members
    requires forall a :: a in setmap' ==> setmap'[a] == if a in merged.members then merged else setmap[a]
    ensures hits <= groups
    ensures Disjoint(groups - hits + {merged}) && MapOk(groups - hits + {merged}, setmap')
  {
    var now := groups - hits + {merged};
    forall g | g in groups - hits
      ensures g.members !! merged.members
    {
      forall a | a in g.members
        ensures a !in merged.members
      {
        assert setmap[a] == g;
      }
    }
    assert Disjoint(now);
    forall g, a | g in now && a in g.members
      ensures a in setmap' && setmap'[a] == g
    {
      if g != merged {
        assert setmap[a] == g;
      }
    }
    forall a | a in setmap'
      ensures setmap'[a] in now && a in setmap'[a].members
    {
      if a !in merged.members {
        assert setmap[a] in groups && a in setmap[a].members;
        assert setmap[a] !in hits;
      }
    }
  }

  /** Everything in the merged group is linked, through the new grouping. */
  lemma MergedIsLinked(gs: seq<set<Destination>>, grouping: set<Destination>, merged: set<Destination>)
    requires forall a :: a in merged && a !in grouping ==> exists b :: b in grouping && Linked(gs, a, b)
    ensures AllLinked(gs + [grouping], merged)
  {
    var more := gs + [grouping];
    forall a, b | a in merged && b in merged
      ensures Linked(more, a, b)
    {
      var a' := ViaGrouping(gs, grouping, merged, a);
      var b' := ViaGrouping(gs, grouping, merged, b);
      LinkedInOne(more, |gs|, a', b');
      LinkedSym(more, b, b');
      LinkedTrans(more, a, a', b');
      LinkedTrans(more, a, b', b);
    }
  }

  lemma ViaGrouping(gs: seq<set<Destination>>, grouping: set<Destination>, merged: set<Destination>, a: Destination)
    returns (b: Destination)
    requires forall a :: a in merged && a !in grouping ==> exists b :: b in grouping && Linked(gs, a, b)
    requires a in merged
    ensures b in grouping && Linked(gs + [grouping], a, b)
  {
    if a in grouping {
      b := a;
      LinkedInOne(gs + [grouping], |gs|, a, a);
    } else {
      b :| b in grouping && Linked(gs, a, b);
      LinkedGrows(gs, gs + [grouping], a, b);
    }
  }

  lemma RoundKeepsLinks(groups: set<Group>, setmap: map<Destination, Group>, gs: seq<set<Destination>>,
                        grouping: set<Destination>, hits: set<Group>, merged: Group)
    requires MapOk(groups, setmap) && Tight(groups, gs) && Covers(groups, gs) && merged !in groups
    requires hits <= groups && forall g :: g in hits <==> exists a :: a in grouping && a in setmap && setmap[a] == g
    requires merged.members == Union(grouping, hits)
    ensures Tight(groups - hits + {merged}, gs + [grouping]) && Covers(groups - hits + {merged}, gs + [grouping])
  {
    var now, more := groups - hits + {merged}, gs + [grouping];
    forall a | a in merged.members && a !in grouping
      ensures exists b :: b in grouping && Linked(gs, a, b)
    {
      var g :| g in hits && a in g.members;
      var b :| b in grouping && b in setmap && setmap[b] == g;
      assert AllLinked(gs, g.members);
      assert b in grouping && Linked(gs, a, b);
    }
    MergedIsLinked(gs, grouping, merged.members);
    forall g | g in now
      ensures AllLinked(more, g.members) && (g.members == {} ==> {} in more)
    {
      if g == merged {
        assert grouping <= merged.members && more[|gs|] == grouping;
        assert g.members == {} ==> grouping == {};
      } else {
        assert AllLinked(gs, g.members);
        forall a, b | a in g.members && b in g.members
          ensures Linked(more, a, b)
        {
          LinkedGrows(gs, more, a, b);
        }
        if g.members == {} {
          var i :| 0 <= i < |gs| && gs[i] == {};
          assert more[i] == {};
        }
      }
    }
    forall i | 0 <= i < |more|
      ensures Held(now, more[i])
    {
      if i == |gs| {
        assert merged in now && more[i] <= merged.members;
        if grouping == {} {
          assert merged.members == {};
        }
      } else {
        assert Held(groups, gs[i]);
        var g :| g in groups && gs[i] <= g.members && (gs[i] == {} ==> g.members == {});
        if g in hits {
          assert merged in now && more[i] <= merged.members;
        } else {
          assert g in now && more[i] <= g.members;
        }
      }
    }
  }

  ghost predicate Inside(groups: set<set<Destination>>, s: set<Destination>) {
    exists x :: x in groups && s <= x
  }

  /** An address reachable by a walk is in the group that holds the walk's first grouping. */
  lemma {:induction false} WalkStaysInside(groups: set<set<Destination>>, gs: seq<set<Destination>>, walk: seq<nat>,
                                           a: Destination, b: Destination, g: set<Destination>)
    requires forall x, y :: x in groups && y in groups && x != y ==> x !! y
    requires forall i :: 0 <= i < |gs| ==> Inside(groups, gs[i])
    requires Connects(gs, walk, a, b) && g in groups && a in g
    ensures b in g
    decreases |walk|
  {
    assert Inside(groups, gs[walk[0]]);
    var x :| x in groups && gs[walk[0]] <= x;
    assert x == g by {
      assert a in x && a in g;
    }
    if |walk| > 1 {
      assert gs[walk[1 - 1]] * gs[walk[1]] != {};
      var c :| c in gs[walk[0]] * gs[walk[1]];
      forall i | 0 < i < |walk[1..]|
        ensures gs[walk[1..][i - 1]] * gs[walk[1..][i]] != {}
      {
        assert walk[1..][i] == walk[i + 1] && gs[walk[i + 1 - 1]] * gs[walk[i + 1]] != {};
      }
      assert Connects(gs, walk[1..], c, b);
      WalkStaysInside(groups, gs, walk[1..], c, b, g);
    }
  }

  ghost predicate Together(groups: set<set<Destination>>, a: Destination, b: Destination) {
    exists g :: g in groups && a in g && b in g
  }

  lemma TogetherIsLinked(groups: set<set<Destination>>, gs: seq<set<Destination>>, a: Destination, b: Destination)
    requires forall x, y :: x in groups && y in groups && x != y ==> x !! y
    requires forall i :: 0 <= i < |gs| ==> Inside(groups, gs[i])
    requires forall x :: x in groups ==> AllLinked(gs, x)
    ensures Together(groups, a, b) <==> Linked(gs, a, b)
  {
    if Linked(gs, a, b) {
      var walk :| Connects(gs, walk, a, b);
      assert Inside(groups, gs[walk[0]]);
      var g :| g in groups && gs[walk[0]] <= g;
      WalkStaysInside(groups, gs, walk, a, b, g);
      assert g in groups && a in g && b in g;
    }
    if Together(groups, a, b) {
      var g :| g in groups && a in g && b in g;
      assert AllLinked(gs, g);
    }
  }

  lemma GroupsGrow(groups: set<Group>, g: Group)
    ensures forall s :: IsGroup(groups + {g}, s) <==> IsGroup(groups, s) || s == g.members
  {
    forall s: set<Destination>
      ensures IsGroup(groups + {g}, s) <==> IsGroup(groups, s) || s == g.members
    {
      if IsGroup(groups, s) {
        var h :| h in groups && h.members == s;
        assert h in groups + {g};
      }
      assert g in groups + {g};
    }
  }

  /** Copies the groups out. */
  method CopyOut(groups: set<Group>) returns (ret: set<set<Destination>>)
    ensures forall s :: s in ret <==> IsGroup(groups, s)
  {
    ret := {};
    var todo := groups;
    while todo != {}
      invariant todo <= groups
      invariant forall s :: s in ret <==> IsGroup(groups - todo, s)
    {
      var g :| g in todo;
      ret := ret + {g.members};
      todo := todo - {g};
      GroupsGrow(groups - (todo + {g}), g);
      assert groups - todo == groups - (todo + {g}) + {g};
    }
    assert groups - todo == groups;
  }

  /** The merge loop. */
  method MergeGroupings(groupings: seq<set<Destination>>) returns (ret: set<set<Destination>>)
    ensures forall x, y :: x in ret && y in ret && x != y ==> x !! y
    ensures forall a, b :: Together(ret, a, b) <==> Linked(groupings, a, b)
    ensures {} in ret <==> {} in groupings
  {
    var groups: set<Group>, setmap: map<Destination, Group> := {}, map[];
    for k := 0 to |groupings|
      invariant forall g :: g in groups ==> fresh(g)
      invariant Disjoint(groups) && MapOk(groups, setmap)
      invariant Tight(groups, groupings[..k]) && Covers(groups, groupings[..k])
    {
      groups, setmap := MergeOne(groups, setmap, groupings[k], groupings[..k]);
      assert groupings[..k + 1] == groupings[..k] + [groupings[k]];
    }
    assert groupings[..|groupings|] == groupings;
    ret := CopyOut(groups);
    Finished(groups, groupings, ret);
  }

  /** Merging one more grouping. */
  method MergeOne(groups: set<Group>, setmap: map<Destination, Group>, grouping: set<Destination>, ghost gs: seq<set<Destination>>)
    returns (groups': set<Group>, setmap': map<Destination, Group>)
    requires Disjoint(groups) && MapOk(groups, setmap) && Tight(groups, gs) && Covers(groups, gs)
    ensures forall g :: g in groups' ==> g in groups || fresh(g)
    ensures Disjoint(groups') && MapOk(groups', setmap')
    ensures Tight(groups', gs + [grouping]) && Covers(groups', gs + [grouping])
  {
    hide Disjoint, Tight, Covers, Union;
    var hits := Hits(grouping, setmap);
    var merged := new Group(grouping);
    groups' := Absorb(merged, hits, groups);
    groups' := groups' + {merged};
    setmap' := map a | a in setmap.Keys + merged.members :: if a in merged.members then merged else setmap[a];
    RoundKeepsMap(groups, setmap, grouping, hits, merged, setmap');
    RoundKeepsLinks(groups, setmap, gs, grouping, hits, merged);
  }

  lemma Finished(groups: set<Group>, gs: seq<set<Destination>>, ret: set<set<Destination>>)
    requires Disjoint(groups) && Tight(groups, gs) && Covers(groups, gs)
    requires forall s :: s in ret <==> IsGroup(groups, s)
    ensures forall x, y :: x in ret && y in ret && x != y ==> x !! y
    ensures forall a, b :: Together(ret, a, b) <==> Linked(gs, a, b)
    ensures {} in ret <==> {} in gs
  {
    forall i | 0 <= i < |gs|
      ensures Inside(ret, gs[i]) && (gs[i] == {} ==> {} in ret)
    {
      assert Held(groups, gs[i]);
      var g :| g in groups && gs[i] <= g.members && (gs[i] == {} ==> g.members == {});
      assert IsGroup(groups, g.members);
      assert g.members in ret && gs[i] <= g.members;
    }
    forall x | x in ret
      ensures AllLinked(gs, x) && (x == {} ==> {} in gs)
    {
      var g :| g in groups && g.members == x;
    }
    forall x, y | x in ret && y in ret && x != y
      ensures x !! y
    {
      var g :| g in groups && g.members == x;
      var h :| h in groups && h.members == y;
    }
    forall a, b
      ensures Together(ret, a, b) <==> Linked(gs, a, b)
    {
      TogetherIsLinked(ret, gs, a, b);
    }
  }
}
