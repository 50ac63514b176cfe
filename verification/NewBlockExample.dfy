/** A pool with a transaction and its child: the child is assembled only if something can be read at the
    position that stands for "not on disk". */
module NewBlockExample {
  import opened Primitives
  import opened LedgerSpec
  import opened LedgerMoney
  import opened Ledger
  import opened Miner
  import opened NewBlock

  const PAID := Tx(100, 0, [OutPoint(50, 0)], [TxOut(1_000_000, "x")], 200, 1)
  const PARENT := Tx(1, 1, [OutPoint(100, 0)], [TxOut(900_000, "a")], 200, 1)
  const CHILD := Tx(2, 2, [OutPoint(1, 0)], [TxOut(800_000, "b")], 200, 1)

  function Example(readable: bool): World {
    var env := Env({1, 2}, {}, _ => false, (_, _, _) => true, _ => 0, 1000, _ => true, _ => None, 0, 0);
    var cfg := Config(1_000_000, 27_000, 0, 0, 10, false, 0, _ => true, _ => 1);
    var disk := map[Pos(1, 80, 81) := PAID];
    World(env, cfg, map[100 := TxIndex(Pos(1, 80, 81), [Null])],
          if readable then disk[NOT_ON_DISK := PARENT] else disk, map[1 := PARENT, 2 := CHILD])
  }

  lemma Values(readable: bool)
    ensures var w := Example(readable);
            && ValueIn(w.db, w.disk, PARENT.vin) == 1_000_000 && SumOut(PARENT.vout) == 900_000
            && SumOut(CHILD.vout) == 800_000
            && (readable ==> ValueIn(After(w.db, [PARENT]), w.disk, CHILD.vin) == 900_000)
  {
    var w := Example(readable);
    assert PARENT.vin[..0] == [] && CHILD.vin[..0] == [] && PARENT.vout[..0] == [] && CHILD.vout[..0] == [];
    AfterParent(readable);
  }

  lemma AfterParent(readable: bool)
    ensures var w := Example(readable);
            1 in After(w.db, [PARENT]) && After(w.db, [PARENT])[1] == TxIndex(NOT_ON_DISK, [Null])
  {
    var w := Example(readable);
    assert [PARENT][..0] == [];
  }

  lemma ParentIsAdmitted(readable: bool, byFee: bool)
    ensures Admits(Example(readable), PARENT, [], byFee)
  {
    var w := Example(readable);
    Values(readable);
    assert FetchOk(w.env, w.db, w.disk, PARENT.vin[0]);
    assert PARENT.vin[..1] == PARENT.vin;
    assert CheapOk(w.env, w.db, w.disk, PARENT, 0);
    assert IsUnspent(w.db, PARENT.vin[0]);
    Rates(readable);
  }

  lemma Rates(readable: bool)
    ensures var w := Example(readable); FeeRateOf(w, PARENT) == 500_000.0 && FeeRateOf(w, CHILD) == 500_000.0
  {
    var w := Example(readable);
    Values(readable);
    assert PARENT.vin[..0] == [] && CHILD.vin[..0] == [];
    assert OnDisk(w, PARENT.vin[0]) && !OnDisk(w, CHILD.vin[0]) && InPool(w, CHILD.vin[0]);
    assert TotalIn(w, PARENT.vin) == 1_000_000;
    assert TotalIn(w, CHILD.vin) == 900_000;
    assert 200 as real / 1000.0 == 0.2;
  }

  lemma SumsWithParent(readable: bool)
    ensures SizeWith([PARENT]) == 1200 && SigOpsWith(Example(readable).env, [PARENT]) == 101
    ensures Example(readable).env.p2shSigOps(CHILD) == 0
  {
    var env := Example(readable).env;
    assert [PARENT][..0] == [] && |[PARENT]| - 1 == 0;
    assert SigOpsWith(env, []) == 100 && env.p2shSigOps(PARENT) == 0;
    assert SigOpsWith(env, [PARENT]) == SigOpsWith(env, [PARENT][..0]) + PARENT.sigOps + env.p2shSigOps(PARENT);
  }

  lemma ChildIsAdmittedIfReadable(readable: bool, byFee: bool)
    ensures Admits(Example(readable), CHILD, [PARENT], byFee) <==> readable
  {
    hide After, SizeWith, SigOpsWith, ValueIn, FeeRateOf;
    var w := Example(readable);
    var ix := After(w.db, [PARENT]);
    AfterParent(readable);
    ChildFetch(w, [PARENT], 0, CHILD.vin[0]);
    assert FetchOk(w.env, ix, w.disk, CHILD.vin[0]) <==> readable;
    if readable {
      Values(readable);
      Rates(readable);
      SumsWithParent(readable);
      assert CHILD.vin[..1] == CHILD.vin;
      assert Fetchable(w.env, ix, w.disk, CHILD.vin);
      assert FeeOf(ix, w.disk, CHILD) == 100_000;
      assert CheapOk(w.env, ix, w.disk, CHILD, 0);
      assert IsUnspent(ix, CHILD.vin[0]);
      assert ConnectInputsOk(w.env, ix, w.disk, CHILD);
    }
  }

  /** The whole run: both are popped in turn, and the block holds the child exactly if the placeholder can be read. */
  lemma ChildExample(readable: bool)
    ensures var w := Example(readable);
            && PoolOk(w) && PopOrder(w, [1, 2]) && NothingForgotten(w, [1, 2])
            && Replay(w, [1, 2]).vtx == if readable then [PARENT, CHILD] else [PARENT]
  {
    hide Admits, Switches, Example, Replay, PoolOk, Wanted, Awaited;
    var w := Example(readable);
    PoolOf(readable);
    WantedBoth(readable);
    NoRounds(w);
    ReplaySnoc(w, [], 1);
    ReplaySnoc(w, [1], 2);
    assert [] + [1] == [1] && [1] + [2] == [1, 2];
    var first, second := Replay(w, []), Replay(w, [1]);
    ParentIsAdmitted(readable, first.byFee);
    assert [] + [PARENT] == [PARENT] && second.vtx == [PARENT];
    ChildIsAdmittedIfReadable(readable, second.byFee);
    assert [PARENT][0].hash in Ids([PARENT]);
    assert [1, 2][..0] == [] && PoppedReady(w, [1, 2], 0);
    assert [1, 2][..1] == [1] && PoppedReady(w, [1, 2], 1);
  }

  lemma PoolOf(readable: bool)
    ensures Example(readable).pool == map[1 := PARENT, 2 := CHILD]
  {
  }

  lemma NoRounds(w: World)
    ensures Replay(w, []).vtx == []
  {
  }

  lemma WantedBoth(readable: bool)
    ensures var w := Example(readable);
            && PoolOk(w) && Wanted(w, PARENT) && Wanted(w, CHILD)
            && Awaited(w, PARENT.vin) == {} && Awaited(w, CHILD.vin) == {1}
  {
    var w := Example(readable);
    assert OnDisk(w, PARENT.vin[0]) && !OnDisk(w, CHILD.vin[0]) && InPool(w, CHILD.vin[0]);
    assert CHILD.vin[0] in CHILD.vin;
  }
}
