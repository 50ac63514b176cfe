/** Which blocks are to be downloaded from which peer, and which are on their way. */
module DownloadQueue {
  import opened Primitives

  type NodeId = int

  const MAX_BLOCKS_IN_TRANSIT_PER_PEER := 128

  /** An element of a std::list: `node` is the identity its iterators carry. */
  datatype Item = Wanted(node: nat, hash: Hash) | Flying(node: nat, hash: Hash, time: int, before: int)

  /** CNodeState. */
  datatype Peer = Peer(toDownload: seq<Item>, nToDownload: int, inFlight: seq<Item>, nInFlight: int, lastReceive: int)

  /** Maps of the peers to one of their two lists; the other is chosen by `flying`. */
  function List(p: Peer, flying: bool): seq<Item> {
    if flying then p.inFlight else p.toDownload
  }

  type Where = map<Hash, (NodeId, nat)>

  function Hashes(items: seq<Item>): seq<Hash> {
    seq(|items|, i requires 0 <= i < |items| => items[i].hash)
  }

  // ----- one index over one kind of list

  ghost predicate Filed(at: Where, id: NodeId, item: Item, next: nat) {
    item.hash in at && at[item.hash] == (id, item.node) && item.node < next
  }

  ghost predicate ListFiled(at: Where, id: NodeId, items: seq<Item>, next: nat) {
    && (forall i :: 0 <= i < |items| ==> Filed(at, id, items[i], next))
    && (forall i, j :: 0 <= i < j < |items| ==> items[i].node != items[j].node)
  }

  ghost predicate Holds(items: seq<Item>, node: nat, hash: Hash) {
    exists i :: 0 <= i < |items| && items[i].node == node && items[i].hash == hash
  }

  ghost predicate Names(peers: map<NodeId, Peer>, flying: bool, at: Where, h: Hash)
    requires h in at
  {
    at[h].0 in peers && Holds(List(peers[at[h].0], flying), at[h].1, h)
  }

  /** Every list element is in the index, and every entry of the index names a live peer and list element. */
  ghost predicate BookOk(peers: map<NodeId, Peer>, flying: bool, at: Where, next: nat) {
    && (forall id :: id in peers ==> ListFiled(at, id, List(peers[id], flying), next))
    && (forall h :: h in at ==> Names(peers, flying, at, h))
  }

  ghost predicate CountsOk(peers: map<NodeId, Peer>) {
    forall id :: id in peers ==> peers[id].nToDownload == |peers[id].toDownload| && peers[id].nInFlight == |peers[id].inFlight|
  }

  ghost predicate WithinLimit(peers: map<NodeId, Peer>) {
    forall id :: id in peers ==> |peers[id].inFlight| <= MAX_BLOCKS_IN_TRANSIT_PER_PEER
  }

  // ----- removing one hash

  function Without(s: seq<Hash>, h: Hash): seq<Hash> {
    if s == [] then []
    else Without(s[..|s| - 1], h) + (if s[|s| - 1] == h then [] else [s[|s| - 1]])
  }

  lemma {:induction false} WithoutAbsent(s: seq<Hash>, h: Hash)
    requires h !in s
    ensures Without(s, h) == s
  {
    if s != [] {
      WithoutAbsent(s[..|s| - 1], h);
    }
  }

  lemma {:induction false} WithoutOne(s: seq<Hash>, i: nat)
    requires i < |s| && forall j :: 0 <= j < |s| && j != i ==> s[j] != s[i]
    ensures Without(s, s[i]) == s[..i] + s[i + 1..]
  {
    var n := |s| - 1;
    if i == n {
      assert s[i] !in s[..n];
      WithoutAbsent(s[..n], s[i]);
    } else {
      WithoutOne(s[..n], i);
      assert s[..n][..i] + s[..n][i + 1..] + [s[n]] == s[..i] + s[i + 1..];
    }
  }

  function Cut(items: seq<Item>, i: nat): seq<Item>
    requires i < |items|
  {
    items[..i] + items[i + 1..]
  }

  /** Erasing the element an entry names removes the hash, and nothing else, from the peer's list. */
  lemma CutRemovesHash(at: Where, id: NodeId, items: seq<Item>, next: nat, i: nat)
    requires ListFiled(at, id, items, next) && i < |items|
    ensures Hashes(Cut(items, i)) == Without(Hashes(items), items[i].hash)
    ensures ListFiled(at - {items[i].hash}, id, Cut(items, i), next)
  {
    var h := items[i].hash;
    forall j | 0 <= j < |items| && j != i
      ensures items[j].hash != h
    {
      assert Filed(at, id, items[i], next) && Filed(at, id, items[j], next);
    }
    WithoutOne(Hashes(items), i);
    assert Hashes(Cut(items, i)) == Hashes(items)[..i] + Hashes(items)[i + 1..];
    forall k | 0 <= k < |items| - 1
      ensures Filed(at - {h}, id, Cut(items, i)[k], next)
    {
      assert Cut(items, i)[k] == items[if k < i then k else k + 1];
      assert Filed(at, id, items[if k < i then k else k + 1], next);
    }
  }

  lemma ElsewhereUntouched(at: Where, id: NodeId, items: seq<Item>, next: nat, h: Hash)
    requires ListFiled(at, id, items, next) && h in at && at[h].0 != id
    ensures ListFiled(at - {h}, id, items, next) && h !in Hashes(items) && Without(Hashes(items), h) == Hashes(items)
  {
    forall i | 0 <= i < |items|
      ensures Filed(at - {h}, id, items[i], next) && items[i].hash != h
    {
      assert Filed(at, id, items[i], next);
    }
    WithoutAbsent(Hashes(items), h);
  }

  lemma AbsentUntouched(at: Where, id: NodeId, items: seq<Item>, next: nat, h: Hash)
    requires ListFiled(at, id, items, next) && h !in at
    ensures h !in Hashes(items) && Without(Hashes(items), h) == Hashes(items)
  {
    forall i | 0 <= i < |items|
      ensures items[i].hash != h
    {
      assert Filed(at, id, items[i], next);
    }
    WithoutAbsent(Hashes(items), h);
  }

  lemma StillHeld(items: seq<Item>, i: nat, node: nat, hash: Hash)
    requires i < |items| && Holds(items, node, hash) && hash != items[i].hash
    ensures Holds(Cut(items, i), node, hash)
  {
    var j :| 0 <= j < |items| && items[j].node == node && items[j].hash == hash;
    assert Cut(items, i)[if j < i then j else j - 1] == items[j];
  }

  /** Dropping one entry together with the element it names keeps the book. */
  lemma BookErase(peers: map<NodeId, Peer>, flying: bool, at: Where, next: nat, h: Hash, i: nat, peers': map<NodeId, Peer>)
    requires BookOk(peers, flying, at, next) && h in at && at[h].0 in peers && peers'.Keys == peers.Keys
    requires i < |List(peers[at[h].0], flying)| && List(peers[at[h].0], flying)[i].hash == h
    requires List(peers'[at[h].0], flying) == Cut(List(peers[at[h].0], flying), i)
    requires forall id :: id in peers && id != at[h].0 ==> List(peers'[id], flying) == List(peers[id], flying)
    ensures BookOk(peers', flying, at - {h}, next)
    ensures forall id :: id in peers ==> Hashes(List(peers'[id], flying)) == Without(Hashes(List(peers[id], flying)), h)
  {
    hide ListFiled, Hashes, Without, List, Cut, Holds;
    var owner := at[h].0;
    forall id | id in peers
      ensures ListFiled(at - {h}, id, List(peers'[id], flying), next)
      ensures Hashes(List(peers'[id], flying)) == Without(Hashes(List(peers[id], flying)), h)
    {
      if id == owner {
        CutRemovesHash(at, id, List(peers[id], flying), next, i);
      } else {
        ElsewhereUntouched(at, id, List(peers[id], flying), next, h);
      }
    }
    forall k | k in at - {h}
      ensures Names(peers', flying, at - {h}, k)
    {
      assert Names(peers, flying, at, k);
      if at[k].0 == owner {
        StillHeld(List(peers[owner], flying), i, at[k].1, k);
      }
    }
  }

  /** Appending a new element and its entry keeps the book. */
  lemma BookAppend(peers: map<NodeId, Peer>, flying: bool, at: Where, next: nat, id: NodeId, item: Item, peers': map<NodeId, Peer>)
    requires BookOk(peers, flying, at, next) && id in peers && peers'.Keys == peers.Keys
    requires item.hash !in at && item.node == next
    requires List(peers'[id], flying) == List(peers[id], flying) + [item]
    requires forall k :: k in peers && k != id ==> List(peers'[k], flying) == List(peers[k], flying)
    ensures BookOk(peers', flying, at[item.hash := (id, next)], next + 1)
  {
    hide List;
    var at' := at[item.hash := (id, next)];
    forall k | k in peers
      ensures ListFiled(at', k, List(peers'[k], flying), next + 1)
    {
      FiledAppend(at, k, List(peers[k], flying), next, id, item);
    }
    forall h | h in at'
      ensures Names(peers', flying, at', h)
    {
      if h == item.hash {
        var items := List(peers'[id], flying);
        assert items[|items| - 1] == item;
      } else {
        assert Names(peers, flying, at, h);
        if at[h].0 == id {
          var j :| 0 <= j < |List(peers[id], flying)| && List(peers[id], flying)[j].node == at[h].1 && List(peers[id], flying)[j].hash == h;
          assert List(peers'[id], flying)[j] == List(peers[id], flying)[j];
        }
      }
    }
  }

  lemma FiledAppend(at: Where, k: NodeId, items: seq<Item>, next: nat, id: NodeId, item: Item)
    requires ListFiled(at, k, items, next) && item.hash !in at && item.node == next
    ensures var at' := at[item.hash := (id, next)];
            ListFiled(at', k, if k == id then items + [item] else items, next + 1)
  {
    var at' := at[item.hash := (id, next)];
    forall i | 0 <= i < |items|
      ensures Filed(at', k, items[i], next + 1) && items[i].node != next
    {
      assert Filed(at, k, items[i], next);
    }
  }

  /** Lists of the other kind do not matter. */
  lemma BookSame(peers: map<NodeId, Peer>, flying: bool, at: Where, next: nat, peers': map<NodeId, Peer>, next': nat)
    requires BookOk(peers, flying, at, next) && peers'.Keys == peers.Keys && next <= next'
    requires forall id :: id in peers ==> List(peers'[id], flying) == List(peers[id], flying)
    ensures BookOk(peers', flying, at, next')
  {
    hide List, Holds;
    forall id | id in peers
      ensures ListFiled(at, id, List(peers'[id], flying), next')
    {
      var items := List(peers[id], flying);
      forall i | 0 <= i < |items|
        ensures Filed(at, id, items[i], next')
      {
        assert Filed(at, id, items[i], next);
      }
    }
    forall h | h in at
      ensures Names(peers', flying, at, h)
    {
      assert Names(peers, flying, at, h);
    }
  }

  /** Forgetting a peer and all entries of its list keeps the book. */
  lemma BookForget(peers: map<NodeId, Peer>, flying: bool, at: Where, next: nat, id: NodeId)
    requires BookOk(peers, flying, at, next) && id in peers
    ensures BookOk(peers - {id}, flying, at - SetOf(Hashes(List(peers[id], flying))), next)
  {
    hide List;
    var gone := SetOf(Hashes(List(peers[id], flying)));
    var at' := at - gone;
    forall k | k in peers - {id}
      ensures ListFiled(at', k, List(peers[k], flying), next)
    {
      var items := List(peers[k], flying);
      assert ListFiled(at, k, items, next);
      forall i | 0 <= i < |items|
        ensures Filed(at', k, items[i], next)
      {
        assert Filed(at, k, items[i], next);
        NotOnList(at, id, List(peers[id], flying), next, items[i].hash);
      }
    }
    forall h | h in at'
      ensures Names(peers - {id}, flying, at', h)
    {
      assert Names(peers, flying, at, h);
      if at[h].0 == id {
        HeldIsListed(List(peers[id], flying), at[h].1, h);
      }
    }
  }

  lemma HeldIsListed(items: seq<Item>, node: nat, h: Hash)
    requires Holds(items, node, h)
    ensures h in SetOf(Hashes(items))
  {
    var j :| 0 <= j < |items| && items[j].node == node && items[j].hash == h;
    assert Hashes(items)[j] == h;
  }

  lemma NotOnList(at: Where, id: NodeId, items: seq<Item>, next: nat, h: Hash)
    requires ListFiled(at, id, items, next) && h in at && at[h].0 != id
    ensures h !in SetOf(Hashes(items))
  {
    ElsewhereUntouched(at, id, items, next, h);
  }

  function SetOf(s: seq<Hash>): set<Hash> {
    set h | h in s
  }

  /** A hash has one place: one peer, one list, one position. */
  lemma OnePlace(peers: map<NodeId, Peer>, queuedAt: Where, flyingAt: Where, next: nat,
                 f: bool, f': bool, id: NodeId, id': NodeId, i: nat, i': nat)
    requires BookOk(peers, false, queuedAt, next) && BookOk(peers, true, flyingAt, next) && queuedAt.Keys !! flyingAt.Keys
    requires id in peers && id' in peers && i < |List(peers[id], f)| && i' < |List(peers[id'], f')|
    requires List(peers[id], f)[i].hash == List(peers[id'], f')[i'].hash
    ensures f == f' && id == id' && i == i'
  {
    hide List;
    var at, at' := if f then flyingAt else queuedAt, if f' then flyingAt else queuedAt;
    assert ListFiled(at, id, List(peers[id], f), next) && ListFiled(at', id', List(peers[id'], f'), next);
    assert Filed(at, id, List(peers[id], f)[i], next);
    assert Filed(at', id', List(peers[id'], f')[i'], next);
  }

  // ----- the bookkeeping

  class Downloads {
    var peers: map<NodeId, Peer>
    var queuedAt: Where
    var flyingAt: Where
    var nextNode: nat

    ghost predicate Valid()
      reads this
    {
      && BookOk(peers, false, queuedAt, nextNode)
      && BookOk(peers, true, flyingAt, nextNode)
      && queuedAt.Keys !! flyingAt.Keys
      && CountsOk(peers)
    }

    ghost function Queue(id: NodeId): seq<Hash>
      requires id in peers
      reads this
    {
      Hashes(List(peers[id], false))
    }

    ghost function Flight(id: NodeId): seq<Hash>
      requires id in peers
      reads this
    {
      Hashes(List(peers[id], true))
    }

    constructor ()
      ensures Valid() && WithinLimit(peers) && peers == map[]
    {
      peers, queuedAt, flyingAt, nextNode := map[], map[], map[], 0;
    }

    method InitializeNode(id: NodeId)
      requires Valid()
      modifies this
      ensures Valid() && peers.Keys == old(peers.Keys) + {id}
      ensures forall k :: k in old(peers) ==> peers[k] == old(peers[k])
      ensures id !in old(peers) ==> peers[id].lastReceive == 0 && Queue(id) == [] && Flight(id) == []
      ensures old(WithinLimit(peers)) ==> WithinLimit(peers)
    {
      if id !in peers {
        ghost var was := peers;
        peers := peers[id := Peer([], 0, [], 0, 0)];
        BookArrival(was, false, queuedAt, nextNode, id, peers[id]);
        BookArrival(was, true, flyingAt, nextNode, id, peers[id]);
      }
    }

    /** Everything the peer was to deliver becomes free for other peers. */
    method FinalizeNode(id: NodeId)
      requires Valid() && id in peers
      modifies this
      ensures Valid() && peers == old(peers) - {id}
      ensures queuedAt == old(queuedAt) - SetOf(old(Queue(id))) && flyingAt == old(flyingAt) - SetOf(old(Flight(id)))
      ensures old(WithinLimit(peers)) ==> WithinLimit(peers)
    {
      hide BookOk;
      BookForget(peers, false, queuedAt, nextNode, id);
      BookForget(peers, true, flyingAt, nextNode, id);
      var state := peers[id];
      for i := 0 to |state.inFlight|
        invariant flyingAt == old(flyingAt) - SetOf(Hashes(state.inFlight)[..i])
        invariant peers == old(peers) && queuedAt == old(queuedAt) && nextNode == old(nextNode)
      {
        NextGone(old(flyingAt), state.inFlight, i);
        flyingAt := flyingAt - {state.inFlight[i].hash};
      }
      assert Hashes(state.inFlight)[..|state.inFlight|] == Hashes(state.inFlight);
      for i := 0 to |state.toDownload|
        invariant queuedAt == old(queuedAt) - SetOf(Hashes(state.toDownload)[..i])
        invariant flyingAt == old(flyingAt) - SetOf(old(Flight(id)))
        invariant peers == old(peers) && nextNode == old(nextNode)
      {
        NextGone(old(queuedAt), state.toDownload, i);
        queuedAt := queuedAt - {state.toDownload[i].hash};
      }
      assert Hashes(state.toDownload)[..|state.toDownload|] == Hashes(state.toDownload);
      peers := peers - {id};
    }

    /** The hash leaves whichever list it is on. */
    method MarkBlockAsReceived(hash: Hash, from: NodeId, now: int)
      requires Valid()
      modifies this
      ensures Valid() && peers.Keys == old(peers.Keys) && nextNode == old(nextNode)
      ensures queuedAt == old(queuedAt) - {hash} && flyingAt == old(flyingAt) - {hash}
      ensures forall id :: id in peers ==> Queue(id) == Without(old(Queue(id)), hash) && Flight(id) == Without(old(Flight(id)), hash)
      ensures forall id :: id in peers ==>
        peers[id].lastReceive == if id == from && hash in old(flyingAt) && old(flyingAt)[hash].0 == id then now else old(peers[id].lastReceive)
      ensures old(WithinLimit(peers)) ==> WithinLimit(peers)
    {
      hide BookOk, Without;
      TakeOff(hash);
      Land(hash, from, now);
    }

    /** Removes the hash from the list of blocks to download. */
    method TakeOff(hash: Hash)
      requires Valid()
      modifies this
      ensures Valid() && peers.Keys == old(peers.Keys) && nextNode == old(nextNode)
      ensures queuedAt == old(queuedAt) - {hash} && flyingAt == old(flyingAt)
      ensures forall id :: id in peers ==> Queue(id) == Without(old(Queue(id)), hash)
      ensures forall id :: id in peers ==> peers[id].inFlight == old(peers[id].inFlight) && peers[id].lastReceive == old(peers[id].lastReceive)
    {
      hide Without, Hashes, ListFiled;
      if hash in queuedAt {
        ghost var was := peers;
        var (id, node) := queuedAt[hash];
        assert Names(peers, false, queuedAt, hash);
        var state := peers[id];
        var i :| 0 <= i < |state.toDownload| && state.toDownload[i].node == node && state.toDownload[i].hash == hash;
        state := state.(toDownload := Cut(state.toDownload, i), nToDownload := state.nToDownload - 1);
        peers := peers[id := state];
        BookErase(was, false, queuedAt, nextNode, hash, i, peers);
        BookSame(was, true, flyingAt, nextNode, peers, nextNode);
        queuedAt := queuedAt - {hash};
      } else {
        forall id | id in peers
          ensures Queue(id) == Without(Queue(id), hash)
        {
          AbsentUntouched(queuedAt, id, List(peers[id], false), nextNode, hash);
        }
      }
    }

    /** Removes the hash from the list of blocks in flight. */
    method Land(hash: Hash, from: NodeId, now: int)
      requires Valid()
      modifies this
      ensures Valid() && peers.Keys == old(peers.Keys) && nextNode == old(nextNode)
      ensures flyingAt == old(flyingAt) - {hash} && queuedAt == old(queuedAt)
      ensures forall id :: id in peers ==> Flight(id) == Without(old(Flight(id)), hash)
      ensures forall id :: id in peers ==> peers[id].toDownload == old(peers[id].toDownload)
      ensures forall id :: id in peers ==>
        peers[id].lastReceive == if id == from && hash in old(flyingAt) && old(flyingAt)[hash].0 == id then now else old(peers[id].lastReceive)
      ensures forall id :: id in peers ==> |peers[id].inFlight| <= |old(peers[id].inFlight)|
    {
      hide Without, Hashes, ListFiled;
      if hash in flyingAt {
        ghost var was := peers;
        var (id, node) := flyingAt[hash];
        assert Names(peers, true, flyingAt, hash);
        var state := peers[id];
        var i :| 0 <= i < |state.inFlight| && state.inFlight[i].node == node && state.inFlight[i].hash == hash;
        state := state.(inFlight := Cut(state.inFlight, i), nInFlight := state.nInFlight - 1);
        if id == from {
          state := state.(lastReceive := now);
        }
        peers := peers[id := state];
        BookErase(was, true, flyingAt, nextNode, hash, i, peers);
        BookSame(was, false, queuedAt, nextNode, peers, nextNode);
        flyingAt := flyingAt - {hash};
      } else {
        forall id | id in peers
          ensures Flight(id) == Without(Flight(id), hash)
        {
          AbsentUntouched(flyingAt, id, List(peers[id], true), nextNode, hash);
        }
      }
    }

    /** Refused when the hash has a place already or the peer is unknown. */
    method AddBlockToQueue(id: NodeId, hash: Hash) returns (ok: bool, misbehaving: bool)
      requires Valid()
      modifies this
      ensures Valid() && peers.Keys == old(peers.Keys) && flyingAt == old(flyingAt)
      ensures ok <==> id in peers && hash !in old(queuedAt) && hash !in old(flyingAt)
      ensures !ok ==> peers == old(peers) && queuedAt == old(queuedAt)
      ensures ok ==> Queue(id) == old(Queue(id)) + [hash] && peers[id].inFlight == old(peers[id].inFlight)
      ensures forall k :: k in peers && k != id ==> peers[k] == old(peers[k])
      ensures misbehaving <==> ok && |Queue(id)| > 5000
      ensures old(WithinLimit(peers)) ==> WithinLimit(peers)
    {
      hide ListFiled;
      ok, misbehaving := false, false;
      if hash in queuedAt || hash in flyingAt || id !in peers {
        return;
      }
      ghost var was := peers;
      var state, item := peers[id], Wanted(nextNode, hash);
      state := state.(toDownload := state.toDownload + [item], nToDownload := state.nToDownload + 1);
      misbehaving := state.nToDownload > 5000;
      peers := peers[id := state];
      BookAppend(was, false, queuedAt, nextNode, id, item, peers);
      BookSame(was, true, flyingAt, nextNode, peers, nextNode + 1);
      queuedAt := queuedAt[hash := (id, nextNode)];
      nextNode := nextNode + 1;
      HashesAppend(was[id].toDownload, item);
      ok := true;
    }

    method MarkBlockAsInFlight(id: NodeId, hash: Hash, now: int)
      requires Valid() && id in peers
      modifies this
      ensures Valid() && peers.Keys == old(peers.Keys)
      ensures forall k :: k in peers ==> Queue(k) == Without(old(Queue(k)), hash)
      ensures forall k :: k in peers ==> Flight(k) == Without(old(Flight(k)), hash) + if k == id then [hash] else []
      ensures hash in flyingAt && flyingAt[hash].0 == id
      ensures id != -1 ==> peers[id].lastReceive == if Without(old(Flight(id)), hash) == [] then now else old(peers[id].lastReceive)
      ensures forall k :: k in peers && k != id && k != -1 ==> peers[k].lastReceive == old(peers[k].lastReceive)
    {
      hide BookOk, Without, Hashes;
      MarkBlockAsReceived(hash, -1, now);
      ghost var was := peers;
      SameLengths(peers);
      var state, item := peers[id], Flying(nextNode, hash, now, peers[id].nInFlight);
      if state.nInFlight == 0 {
        state := state.(lastReceive := now);
      }
      state := state.(inFlight := state.inFlight + [item], nInFlight := state.nInFlight + 1);
      peers := peers[id := state];
      BookAppend(was, true, flyingAt, nextNode, id, item, peers);
      BookSame(was, false, queuedAt, nextNode, peers, nextNode + 1);
      flyingAt := flyingAt[hash := (id, nextNode)];
      nextNode := nextNode + 1;
      HashesAppend(was[id].inFlight, item);
    }

    /** The request loop of SendMessages: the peer is asked for the front of its queue, as far as the limit
        on blocks in flight allows, and nothing else changes. */
    method RequestBlocks(id: NodeId, disconnect: bool, now: int) returns (asked: seq<Hash>)
      requires Valid() && id in peers && WithinLimit(peers)
      modifies this
      ensures Valid() && peers.Keys == old(peers.Keys) && WithinLimit(peers)
      ensures |asked| == if disconnect then 0 else Min(|old(Queue(id))|, MAX_BLOCKS_IN_TRANSIT_PER_PEER - |old(Flight(id))|)
      ensures asked + Queue(id) == old(Queue(id)) && Flight(id) == old(Flight(id)) + asked
      ensures forall k :: k in peers && k != id ==> Queue(k) == old(Queue(k)) && Flight(k) == old(Flight(k))
    {
      hide BookOk, Without, Hashes;
      asked := [];
      SameLengths(peers);
      while !disconnect && peers[id].nToDownload != 0 && peers[id].nInFlight < MAX_BLOCKS_IN_TRANSIT_PER_PEER
        invariant Valid() && peers.Keys == old(peers.Keys) && WithinLimit(peers)
        invariant asked + Queue(id) == old(Queue(id)) && Flight(id) == old(Flight(id)) + asked
        invariant forall k :: k in peers && k != id ==> Queue(k) == old(Queue(k)) && Flight(k) == old(Flight(k))
        invariant disconnect ==> asked == []
        invariant |Queue(id)| == |peers[id].toDownload| && |Flight(id)| == |peers[id].inFlight|
        decreases |Queue(id)|
      {
        var hash := RequestFront(id, now);
        asked := asked + [hash];
      }
    }

    /** The front of a peer's queue goes to the end of its blocks in flight, and nothing else moves. */
    method RequestFront(id: NodeId, now: int) returns (hash: Hash)
      requires Valid() && id in peers && WithinLimit(peers) && peers[id].nToDownload != 0
      requires peers[id].nInFlight < MAX_BLOCKS_IN_TRANSIT_PER_PEER
      modifies this
      ensures Valid() && peers.Keys == old(peers.Keys) && WithinLimit(peers)
      ensures [hash] + Queue(id) == old(Queue(id)) && Flight(id) == old(Flight(id)) + [hash]
      ensures forall k :: k in peers && k != id ==> Queue(k) == old(Queue(k)) && Flight(k) == old(Flight(k))
      ensures |Queue(id)| == |peers[id].toDownload| && |Flight(id)| == |peers[id].inFlight|
    {
      hide BookOk, Without, Hashes;
      SameLengths(peers);
      hash := peers[id].toDownload[0].hash;
      FrontIsUnique(peers, queuedAt, flyingAt, nextNode, id);
      MarkBlockAsInFlight(id, hash, now);
      SameLengths(peers);
    }
  }

  lemma SameLengths(peers: map<NodeId, Peer>)
    ensures forall id :: id in peers ==>
      |Hashes(List(peers[id], false))| == |peers[id].toDownload| && |Hashes(List(peers[id], true))| == |peers[id].inFlight|
  {
  }

  lemma HashesAppend(items: seq<Item>, item: Item)
    ensures Hashes(items + [item]) == Hashes(items) + [item.hash]
  {
  }

  lemma BookArrival(peers: map<NodeId, Peer>, flying: bool, at: Where, next: nat, id: NodeId, p: Peer)
    requires BookOk(peers, flying, at, next) && id !in peers && List(p, flying) == []
    ensures BookOk(peers[id := p], flying, at, next)
  {
    forall h | h in at
      ensures Names(peers[id := p], flying, at, h)
    {
      assert Names(peers, flying, at, h);
    }
  }

  lemma NextGone(at: Where, items: seq<Item>, i: nat)
    requires i < |items|
    ensures SetOf(Hashes(items)[..i + 1]) == SetOf(Hashes(items)[..i]) + {items[i].hash}
    ensures at - SetOf(Hashes(items)[..i + 1]) == (at - SetOf(Hashes(items)[..i])) - {items[i].hash}
  {
    assert Hashes(items)[..i + 1] == Hashes(items)[..i] + [items[i].hash];
  }

  /** Taking the front of a peer's queue leaves every other list alone. */
  lemma FrontIsUnique(peers: map<NodeId, Peer>, queuedAt: Where, flyingAt: Where, next: nat, id: NodeId)
    requires BookOk(peers, false, queuedAt, next) && BookOk(peers, true, flyingAt, next) && queuedAt.Keys !! flyingAt.Keys
    requires id in peers && peers[id].toDownload != []
    ensures var h := peers[id].toDownload[0].hash;
            && Hashes(List(peers[id], false))[0] == h
            && Without(Hashes(List(peers[id], false)), h) == Hashes(List(peers[id], false))[1..]
            && (forall k :: k in peers && k != id ==> Without(Hashes(List(peers[k], false)), h) == Hashes(List(peers[k], false)))
            && (forall k :: k in peers ==> Without(Hashes(List(peers[k], true)), h) == Hashes(List(peers[k], true)))
  {
    hide Without, ListFiled;
    var items := peers[id].toDownload;
    var h := items[0].hash;
    assert ListFiled(queuedAt, id, List(peers[id], false), next);
    CutRemovesHash(queuedAt, id, items, next, 0);
    assert Hashes(items)[1..] == Hashes(Cut(items, 0));
    assert Filed(queuedAt, id, items[0], next) by {
      FiledAt(queuedAt, id, items, next, 0);
    }
    forall k | k in peers && k != id
      ensures Without(Hashes(List(peers[k], false)), h) == Hashes(List(peers[k], false))
    {
      ElsewhereUntouched(queuedAt, k, List(peers[k], false), next, h);
    }
    forall k | k in peers
      ensures Without(Hashes(List(peers[k], true)), h) == Hashes(List(peers[k], true))
    {
      AbsentUntouched(flyingAt, k, List(peers[k], true), next, h);
    }
  }

  lemma FiledAt(at: Where, id: NodeId, items: seq<Item>, next: nat, i: nat)
    requires ListFiled(at, id, items, next) && i < |items|
    ensures Filed(at, id, items[i], next)
  {
  }
}
