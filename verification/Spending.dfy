/** Building a transaction: choosing coins and raising the fee until it covers the size. */
module Spending {
  import opened Primitives
  import opened CoinLists
  import opened SelectByCoinAge
  import opened SelectBySubset
  import opened Fees

  // ----- SelectCoins

  /** The three attempts ask for fewer and fewer confirmations; this is the last. */
  function Loosest(target: nat, spendTime: nat): Rules {
    Rules(target, spendTime, 0, 1)
  }

  /** No choice of eligible coins is found. */
  ghost predicate Insufficient(byAge: bool, r: Rules, outputs: seq<Output>) {
    && Total(Lower(r, outputs)) < r.target
    && forall o :: o in outputs ==> if byAge then !IsLarger(r, o) else !IsBigger(r, o)
  }

  /** The value of all coins that are deep enough, our own or those of others, and not younger than the transaction. */
  function Spendable(outputs: seq<Output>, spendTime: nat, mine: int, theirs: int): nat {
    if outputs == [] then 0
    else
      var o := outputs[0];
      (if o.time <= spendTime && ((o.fromMe && o.depth >= mine) || (!o.fromMe && o.depth >= theirs)) then o.value else 0) +
      Spendable(outputs[1..], spendTime, mine, theirs)
  }

  /** Every coin's value, and for selection by coin age its cost too, is below the largest 64-bit integer. */
  ghost predicate Fits(byAge: bool, outputs: seq<Output>) {
    forall o :: o in outputs ==> o.value < MAX_INT64 && (byAge ==> o.cost < MAX_INT64)
  }

  /** Selection fails exactly when everything spendable together falls short: a bigger coin would suffice alone. */
  lemma InsufficientMeans(byAge: bool, r: Rules, outputs: seq<Output>)
    requires Fits(byAge, outputs)
    ensures Insufficient(byAge, r, outputs) <==> Spendable(outputs, r.spendTime, r.confMine, r.confTheirs) < r.target
  {
    hide Spendable, Lower, Total;
    if exists o :: o in outputs && Eligible(r, o) && o.value >= r.target + CENT {
      var o :| o in outputs && Eligible(r, o) && o.value >= r.target + CENT;
      OneIsSpendable(r, outputs, o);
      assert if byAge then IsLarger(r, o) else IsBigger(r, o);
    } else {
      LowerIsSpendable(r, outputs);
    }
  }

  lemma {:induction false} OneIsSpendable(r: Rules, outputs: seq<Output>, o: Output)
    requires o in outputs && Eligible(r, o)
    ensures Spendable(outputs, r.spendTime, r.confMine, r.confTheirs) >= o.value
  {
    if outputs[0] != o {
      OneIsSpendable(r, outputs[1..], o);
    }
  }

  lemma {:induction false} LowerIsSpendable(r: Rules, outputs: seq<Output>)
    requires forall o :: o in outputs && Eligible(r, o) ==> o.value < r.target + CENT
    ensures Total(Lower(r, outputs)) == Spendable(outputs, r.spendTime, r.confMine, r.confTheirs)
  {
    if outputs != [] {
      var o := outputs[0];
      assert o in outputs;
      LowerIsSpendable(r, outputs[1..]);
      TotalConcat(if IsLower(r, o) then [AsEntry(o)] else [], Lower(r, outputs[1..]));
      assert [AsEntry(o)][1..] == [];
    }
  }

  predicate Looser(r: Rules, r': Rules) {
    r.target == r'.target && r.spendTime == r'.spendTime && r'.confMine <= r.confMine && r'.confTheirs <= r.confTheirs
  }

  lemma {:induction false} LooserLower(r: Rules, r': Rules, outputs: seq<Output>)
    requires Looser(r, r')
    ensures Total(Lower(r, outputs)) <= Total(Lower(r', outputs))
  {
    if outputs != [] {
      var o := outputs[0];
      LooserLower(r, r', outputs[1..]);
      TotalConcat(if IsLower(r, o) then [AsEntry(o)] else [], Lower(r, outputs[1..]));
      TotalConcat(if IsLower(r', o) then [AsEntry(o)] else [], Lower(r', outputs[1..]));
    }
  }

  /** Asking for fewer confirmations never turns success into failure. */
  lemma LooserSuffices(byAge: bool, r: Rules, r': Rules, outputs: seq<Output>)
    requires Looser(r, r') && Insufficient(byAge, r', outputs)
    ensures Insufficient(byAge, r, outputs)
  {
    LooserLower(r, r', outputs);
  }

  /** The chosen coins are among the offered ones, and their exact sum reaches the target. */
  ghost predicate Funds(outputs: seq<Output>, target: nat, sel: set<OutPoint>, sum: nat) {
    && (forall c :: c in sel ==> exists o :: o in outputs && o.coin == c)
    && sum == SumIn(Entries(outputs), sel) && sum >= target
  }

  /** Selection by coin age reads the first lower coin when there is nothing to reach. */
  ghost predicate HasFirst(r: Rules, outputs: seq<Output>) {
    r.target > 0 || exists o :: o in outputs && IsLower(r, o)
  }

  /** What the configured selector promises. */
  ghost predicate SelectedBy(byAge: bool, r: Rules, outputs: seq<Output>, sel: set<OutPoint>, sum: nat) {
    if byAge then ChosenByAge(r, outputs, sel) else Selected(r, outputs, sel, sum)
  }

  /** One of the two selectors, as the wallet is configured. */
  method SelectWith(byAge: bool, r: Rules, outputs: seq<Output>, luck: nat -> Luck) returns (res: Option<(set<OutPoint>, nat)>)
    requires DistinctOutputs(outputs) && (byAge ==> HasFirst(r, outputs))
    ensures res.None? <==> Insufficient(byAge, r, outputs)
    ensures res.Some? ==> PaysWith(outputs, r, res.value.0, res.value.1)
    ensures res.Some? ==> SelectedBy(byAge, r, outputs, res.value.0, res.value.1)
  {
    hide PaysWith, Total, Lower, ChosenByAge;
    if byAge {
      res := SelectCoinsMinConfByCoinAge(r, outputs);
    } else {
      res := SelectCoinsMinConf(r, outputs, luck);
    }
  }

  /** Every chosen coin is an offered one that is deep enough, our own or one of others, and not too young. */
  ghost predicate DeepEnough(outputs: seq<Output>, sel: set<OutPoint>, spendTime: nat, mine: int, theirs: int) {
    && (forall c :: c in sel ==> exists o :: o in outputs && o.coin == c)
    && forall o :: o in outputs && o.coin in sel ==> o.time <= spendTime && o.depth >= if o.fromMe then mine else theirs
  }

  /** What no choice of coins can pay: more than all hand-picked ones, or more than the loosest rules allow. */
  ghost predicate OutOfReach(byAge: bool, controlled: bool, outputs: seq<Output>, target: nat, spendTime: nat) {
    if controlled then Total(Entries(outputs)) < target else Insufficient(byAge, Loosest(target, spendTime), outputs)
  }

  /** What SelectCoins promises: all hand-picked coins; or coins with one confirmation if ours and ten if not, as long as
      these suffice; else with one; and only if these do not suffice either, also our own unconfirmed ones. */
  ghost predicate Chosen(byAge: bool, controlled: bool, outputs: seq<Output>, target: nat, spendTime: nat, sel: set<OutPoint>, sum: nat) {
    && Funds(outputs, target, sel, sum)
    && if controlled then sel == AllCoins(Entries(outputs))
       else if !Insufficient(byAge, Rules(target, spendTime, 1, 10), outputs) then
         DeepEnough(outputs, sel, spendTime, 1, 10) && SelectedBy(byAge, Rules(target, spendTime, 1, 10), outputs, sel, sum)
       else if !Insufficient(byAge, Rules(target, spendTime, 1, 1), outputs) then
         DeepEnough(outputs, sel, spendTime, 1, 1) && SelectedBy(byAge, Rules(target, spendTime, 1, 1), outputs, sel, sum)
       else DeepEnough(outputs, sel, spendTime, 0, 1) && SelectedBy(byAge, Rules(target, spendTime, 0, 1), outputs, sel, sum)
  }

  lemma PaidDeepEnough(outputs: seq<Output>, r: Rules, sel: set<OutPoint>, sum: nat)
    requires DistinctOutputs(outputs) && PaysWith(outputs, r, sel, sum)
    ensures Funds(outputs, r.target, sel, sum) && DeepEnough(outputs, sel, r.spendTime, r.confMine, r.confTheirs)
  {
    forall o | o in outputs && o.coin in sel
      ensures Eligible(r, o)
    {
      var o' :| o' in outputs && o'.coin == o.coin && Eligible(r, o');
      var i :| 0 <= i < |outputs| && outputs[i] == o;
      var j :| 0 <= j < |outputs| && outputs[j] == o';
    }
  }

  /** With hand-picked coins all of them are taken. Otherwise it fails exactly when even the loosest rules do,
      and unconfirmed or young coins are touched only if needed. */
  method SelectCoins(byAge: bool, controlled: bool, outputs: seq<Output>, target: nat, spendTime: nat, luck: nat -> nat -> Luck)
    returns (res: Option<(set<OutPoint>, nat)>)
    requires DistinctOutputs(outputs) && (byAge && !controlled ==> HasFirst(Rules(target, spendTime, 1, 10), outputs))
    ensures res.None? <==> OutOfReach(byAge, controlled, outputs, target, spendTime)
    ensures res.Some? ==> Chosen(byAge, controlled, outputs, target, spendTime, res.value.0, res.value.1)
  {
    hide Insufficient, Total, SumIn, PaysWith, DeepEnough, Funds, SelectedBy;
    if controlled {
      var v := Entries(outputs);
      var sum := TotalOf(v);
      SumWhole(v, AllCoins(v));
      if sum < target {
        return None;
      }
      AllFund(outputs, target, sum);
      return Some((AllCoins(v), sum));
    }
    LooserSuffices'(byAge, Rules(target, spendTime, 1, 1), Loosest(target, spendTime), outputs);
    LooserSuffices'(byAge, Rules(target, spendTime, 1, 10), Loosest(target, spendTime), outputs);
    var r := Rules(target, spendTime, 1, 10);
    res := SelectWith(byAge, r, outputs, luck(0));
    if res.None? {
      r := Rules(target, spendTime, 1, 1);
      res := SelectWith(byAge, r, outputs, luck(1));
    }
    if res.None? {
      r := Loosest(target, spendTime);
      res := SelectWith(byAge, r, outputs, luck(2));
    }
    if res.Some? {
      PaidDeepEnough(outputs, r, res.value.0, res.value.1);
    }
  }

  lemma AllFund(outputs: seq<Output>, target: nat, sum: nat)
    requires sum == Total(Entries(outputs)) >= target
    ensures Funds(outputs, target, AllCoins(Entries(outputs)), sum)
  {
    ListedCoins(outputs);
    SumWhole(Entries(outputs), AllCoins(Entries(outputs)));
  }

  lemma LooserSuffices'(byAge: bool, r: Rules, r': Rules, outputs: seq<Output>)
    requires Looser(r, r')
    ensures Insufficient(byAge, r', outputs) ==> Insufficient(byAge, r, outputs)
  {
    if Insufficient(byAge, r', outputs) {
      LooserSuffices(byAge, r, r', outputs);
    }
  }

  lemma ListedCoins(outputs: seq<Output>)
    ensures forall c :: c in AllCoins(Entries(outputs)) ==> exists o :: o in outputs && o.coin == c
  {
    var v := Entries(outputs);
    forall c | c in AllCoins(v)
      ensures exists o :: o in outputs && o.coin == c
    {
      var i :| 0 <= i < |v| && v[i].coin == c;
      assert outputs[i] in outputs && outputs[i].coin == c;
    }
  }

  // ----- the fee loop

  /** What the wallet must pay for a transaction of that size. */
  function RequiredFee(payTxFee: nat, bytes: nat): int {
    var pay, min := payTxFee * (1 + bytes / 1000), MinFee(1, Send, bytes);
    if pay >= min then pay else min
  }

  /** For a standard size: the configured rate, but at least 10000, for every thousand bytes begun. */
  lemma RequiredPerKilobyte(payTxFee: nat, bytes: nat)
    requires bytes < 1_500_000
    ensures RequiredFee(payTxFee, bytes) == (1 + bytes / 1000) * if payTxFee >= 10_000 then payTxFee else 10_000
  {
    var kilobytes := 1 + bytes / 1000;
    if payTxFee >= 10_000 {
      MulMono(10_000, payTxFee, kilobytes);
    } else {
      MulMono(payTxFee, 10_000, kilobytes);
    }
  }

  /** No standard transaction needs more. */
  function FeeCap(payTxFee: nat): nat {
    1500 * if payTxFee >= 10_000 then payTxFee else 10_000
  }

  lemma FeeIsCapped(payTxFee: nat, bytes: nat)
    requires bytes < 1_500_000
    ensures payTxFee <= FeeCap(payTxFee) && 0 <= RequiredFee(payTxFee, bytes) <= FeeCap(payTxFee)
  {
    RequiredPerKilobyte(payTxFee, bytes);
    MulMono(1 + bytes / 1000, 1500, if payTxFee >= 10_000 then payTxFee else 10_000);
  }

  /** CWalletTx as built; `bytes` is its serialized size once signed. */
  datatype Built = Built(vin: seq<OutPoint>, vout: seq<TxOut>, fee: nat, bytes: nat)

  /** What one round of the fee loop comes to. */
  datatype Outcome = NoCoins | NotSigned(vin: seq<OutPoint>, vout: seq<TxOut>) | Signed(built: Built)

  /** Signing: the size of the signed transaction, or None if a signature cannot be made. */
  type Signer = (seq<OutPoint>, seq<TxOut>) -> Option<nat>

  function AddChange(vout: seq<TxOut>, k: nat, change: TxOut): seq<TxOut>
    requires k <= |vout|
  {
    vout[..k] + [change] + vout[k..]
  }

  /** The payees in their order, with at most one change output of positive value somewhere among them. */
  ghost predicate PaysOut(vecSend: seq<TxOut>, script: string, vout: seq<TxOut>) {
    vout == vecSend || exists k: nat, change: TxOut :: IsChange(vecSend, script, vout, k, change)
  }

  ghost predicate IsChange(vecSend: seq<TxOut>, script: string, vout: seq<TxOut>, k: nat, change: TxOut) {
    k <= |vecSend| && change.value > 0 && change.script == script && vout == AddChange(vecSend, k, change)
  }

  /** Every coin once, nothing created or lost; the payees are paid, and any change goes to the given script. */
  ghost predicate Balanced(outputs: seq<Output>, vecSend: seq<TxOut>, script: string, vin: seq<OutPoint>, vout: seq<TxOut>, fee: nat) {
    && (forall i, j :: 0 <= i < j < |vin| ==> vin[i] != vin[j])
    && (forall c :: c in vin ==> exists o :: o in outputs && o.coin == c)
    && SumIn(Entries(outputs), CoinSet(vin)) == SumOut(vout) + fee
    && PaysOut(vecSend, script, vout)
  }

  /** The fee covers the size at both rates and stays below the cap. */
  ghost predicate FeeCovers(payTxFee: nat, fee: nat, bytes: nat) {
    && bytes < 1_500_000
    && fee >= 10_000 * (1 + bytes / 1000) && fee >= payTxFee * (1 + bytes / 1000)
    && payTxFee <= fee <= FeeCap(payTxFee)
  }

  lemma {:induction false} SumOutConcat(a: seq<TxOut>, b: seq<TxOut>)
    ensures SumOut(a + b) == SumOut(a) + SumOut(b)
  {
    if b == [] {
      assert a + b == a;
    } else {
      var n := |b| - 1;
      SumOutConcat(a, b[..n]);
      assert (a + b)[..|a + b| - 1] == a + b[..n];
    }
  }

  lemma SumOutOne(o: TxOut)
    ensures SumOut([o]) == o.value
  {
    assert [o][..0] == [];
  }

  lemma ChangeAddsUp(vout: seq<TxOut>, k: nat, change: TxOut)
    requires k <= |vout|
    ensures SumOut(AddChange(vout, k, change)) == SumOut(vout) + change.value
  {
    hide SumOut;
    var a, b := vout[..k], vout[k..];
    assert vout == a + b;
    SumOutConcat(a + [change], b);
    SumOutConcat(a, [change]);
    SumOutConcat(a, b);
    SumOutOne(change);
  }

  /** The amount to send; None if a running sum is negative. */
  method AmountToSend(vecSend: seq<TxOut>) returns (r: Option<nat>)
    ensures r.Some? <==> vecSend != [] && forall i :: 0 < i <= |vecSend| ==> SumOut(vecSend[..i]) >= 0
    ensures r.Some? ==> r.value == SumOut(vecSend)
  {
    var value := 0;
    for i := 0 to |vecSend|
      invariant value == SumOut(vecSend[..i])
      invariant forall j :: 0 < j < i ==> SumOut(vecSend[..j]) >= 0
    {
      if value < 0 {
        assert i > 0 && SumOut(vecSend[..i]) < 0;
        return None;
      }
      assert vecSend[..i + 1][..i] == vecSend[..i];
      value := value + vecSend[i].value;
    }
    assert vecSend[..|vecSend|] == vecSend;
    if vecSend == [] {
      return None;
    }
    if value < 0 {
      assert SumOut(vecSend[..|vecSend|]) < 0;
      return None;
    }
    r := Some(value);
  }

  function CoinSet(vin: seq<OutPoint>): set<OutPoint> {
    set c | c in vin
  }

  /** The coins of a set in some order, each once. */
  method ListCoins(sel: set<OutPoint>) returns (vin: seq<OutPoint>)
    ensures forall i, j :: 0 <= i < j < |vin| ==> vin[i] != vin[j]
    ensures CoinSet(vin) == sel
  {
    vin := [];
    var todo := sel;
    while todo != {}
      invariant todo <= sel
      invariant forall i, j :: 0 <= i < j < |vin| ==> vin[i] != vin[j]
      invariant forall c :: c in vin <==> c in sel && c !in todo
    {
      var c :| c in todo;
      vin := vin + [c];
      todo := todo - {c};
    }
  }

  /** The order the wallet is given. */
  datatype Order = Order(byAge: bool, controlled: bool, outputs: seq<Output>, spendTime: nat, vecSend: seq<TxOut>, payTxFee: nat,
                         changeScript: string)

  /** A draft for that fee: it balances, and its coins are what SelectCoins chooses for payees and fee together. */
  ghost predicate Drafted(w: Order, fee: nat, vin: seq<OutPoint>, vout: seq<TxOut>) {
    && Balanced(w.outputs, w.vecSend, w.changeScript, vin, vout, fee) && SumOut(w.vecSend) >= 0
    && Chosen(w.byAge, w.controlled, w.outputs, SumOut(w.vecSend) + fee, w.spendTime, CoinSet(vin), SumIn(Entries(w.outputs), CoinSet(vin)))
  }

  /** What a round with that fee may come to: no coins exactly if payees and fee are out of reach; else a draft, which is
      signed or cannot be. */
  ghost predicate RoundOk(w: Order, sign: Signer, fee: nat, o: Outcome) {
    && SumOut(w.vecSend) >= 0
    && (o.NoCoins? <==> OutOfReach(w.byAge, w.controlled, w.outputs, SumOut(w.vecSend) + fee, w.spendTime))
    && (o.NotSigned? ==> Drafted(w, fee, o.vin, o.vout) && sign(o.vin, o.vout) == None)
    && (o.Signed? ==> Drafted(w, fee, o.built.vin, o.built.vout) && sign(o.built.vin, o.built.vout) == Some(o.built.bytes) && o.built.fee == fee)
  }

  /** One round: pays the payees and the fee, and returns the change to ourselves. */
  method Draft(w: Order, fee: nat, sign: Signer, luck: nat -> nat -> Luck, place: nat) returns (o: Outcome)
    requires DistinctOutputs(w.outputs) && SumOut(w.vecSend) >= 0
    requires w.byAge && !w.controlled ==> HasFirst(Rules(SumOut(w.vecSend) + fee, w.spendTime, 1, 10), w.outputs)
    ensures RoundOk(w, sign, fee, o)
  {
    hide Funds, SumIn, SumOut, Insufficient, OutOfReach, DeepEnough, SelectedBy;
    var value: nat := SumOut(w.vecSend);
    var chosen := SelectCoins(w.byAge, w.controlled, w.outputs, value + fee, w.spendTime, luck);
    if chosen.None? {
      return NoCoins;
    }
    var (sel, valueIn) := chosen.value;
    FundsFacts(w.outputs, value + fee, sel, valueIn);
    var vout, change := w.vecSend, valueIn - value - fee;
    if change > 0 {
      var k := place % (|vout| + 1);
      ChangeAddsUp(w.vecSend, k, TxOut(change, w.changeScript));
      vout := AddChange(vout, k, TxOut(change, w.changeScript));
      assert IsChange(w.vecSend, w.changeScript, vout, k, TxOut(change, w.changeScript));
    }
    var vin := ListCoins(sel);
    assert forall c :: c in vin ==> c in CoinSet(vin);
    assert SumIn(Entries(w.outputs), CoinSet(vin)) == SumOut(vout) + fee;
    assert forall c :: c in vin ==> exists o :: o in w.outputs && o.coin == c;
    var bytes := sign(vin, vout);
    if bytes.None? {
      return NotSigned(vin, vout);
    }
    o := Signed(Built(vin, vout, fee, bytes.value));
  }

  lemma FundsFacts(outputs: seq<Output>, target: nat, sel: set<OutPoint>, sum: nat)
    requires Funds(outputs, target, sel, sum)
    ensures forall c :: c in sel ==> exists o :: o in outputs && o.coin == c
    ensures sum == SumIn(Entries(outputs), sel) && sum >= target
  {
  }

  /** The order can be carried out at all: there are payees, and no running sum is negative. */
  predicate Payable(vecSend: seq<TxOut>) {
    vecSend != [] && forall i :: 0 < i <= |vecSend| ==> SumOut(vecSend[..i]) >= 0
  }

  /** A signed round ends the loop if its size is not standard or its fee covers it. */
  predicate Ends(payTxFee: nat, o: Outcome) {
    o.Signed? ==> o.built.bytes >= 1_500_000 || o.built.fee >= RequiredFee(payTxFee, o.built.bytes)
  }

  predicate LeadsOn(payTxFee: nat, fee: nat, o: Outcome, next: nat) {
    o.Signed? && !Ends(payTxFee, o) && fee < next == RequiredFee(payTxFee, o.built.bytes)
  }

  /** The rounds: the first fee is the configured one; as long as a round does not end the loop, the next fee is what its
      size requires. */
  ghost predicate RoundsOk(w: Order, sign: Signer, fees: seq<nat>, rounds: seq<Outcome>) {
    && |fees| == |rounds| && (rounds != [] ==> fees[0] == w.payTxFee)
    && (forall i :: 0 <= i < |rounds| ==> RoundOk(w, sign, fees[i], rounds[i]))
    && (forall i :: 0 <= i < |rounds| - 1 ==> LeadsOn(w.payTxFee, fees[i], rounds[i], fees[i + 1]))
  }

  /** CreateTransaction. The fee rises in every round that is not the last, and no standard transaction needs
      more than the cap, so the loop ends. It fails exactly when the order cannot be carried out or its last round finds no
      coins, cannot be signed or is too large; otherwise it returns that round's transaction, which balances and pays for
      its own size. */
  method CreateTransaction(w: Order, sign: Signer, luck: nat -> nat -> nat -> Luck, places: nat -> nat)
    returns (r: Option<Built>, ghost fees: seq<nat>, ghost rounds: seq<Outcome>)
    requires DistinctOutputs(w.outputs)
    requires w.byAge && !w.controlled && w.vecSend != [] && SumOut(w.vecSend) >= 0 ==>
               HasFirst(Rules(SumOut(w.vecSend) + w.payTxFee, w.spendTime, 1, 10), w.outputs)
    ensures RoundsOk(w, sign, fees, rounds) && (rounds == [] <==> !Payable(w.vecSend))
    ensures rounds != [] ==> Ends(w.payTxFee, rounds[|rounds| - 1])
    ensures r.Some? <==> rounds != [] && rounds[|rounds| - 1].Signed? && rounds[|rounds| - 1].built.bytes < 1_500_000
    ensures r.Some? ==> r.value == rounds[|rounds| - 1].built
    ensures r.Some? ==> Balanced(w.outputs, w.vecSend, w.changeScript, r.value.vin, r.value.vout, r.value.fee)
    ensures r.Some? ==> FeeCovers(w.payTxFee, r.value.fee, r.value.bytes)
  {
    hide SumIn, SumOut, RequiredFee, PaysOut, RoundOk, FeeCovers, Balanced;
    fees, rounds := [], [];
    var amount := AmountToSend(w.vecSend);
    if amount.None? {
      return None, fees, rounds;
    }
    var fee: nat, n := w.payTxFee, 0;
    FeeIsCapped(w.payTxFee, 0);
    while true
      invariant w.payTxFee <= fee <= FeeCap(w.payTxFee) && n >= 0
      invariant RoundsOk(w, sign, fees, rounds) && (rounds == [] ==> fee == w.payTxFee)
      invariant rounds != [] ==> LeadsOn(w.payTxFee, fees[|rounds| - 1], rounds[|rounds| - 1], fee)
      decreases FeeCap(w.payTxFee) - fee
    {
      var o := Draft(w, fee, sign, luck(n), places(n));
      n := n + 1;
      fees, rounds := fees + [fee], rounds + [o];
      if !o.Signed? {
        return None, fees, rounds;
      }
      DraftFacts(w, sign, fee, o);
      var bytes := o.built.bytes;
      if bytes >= MAX_STANDARD_TX_SIZE {
        return None, fees, rounds;
      }
      FeeIsCapped(w.payTxFee, bytes);
      if fee < RequiredFee(w.payTxFee, bytes) {
        fee := RequiredFee(w.payTxFee, bytes);
      } else {
        EnoughFee(w.payTxFee, fee, bytes);
        return Some(o.built), fees, rounds;
      }
    }
  }

  lemma DraftFacts(w: Order, sign: Signer, fee: nat, o: Outcome)
    requires RoundOk(w, sign, fee, o) && o.Signed?
    ensures Balanced(w.outputs, w.vecSend, w.changeScript, o.built.vin, o.built.vout, fee) && o.built.fee == fee
  {
  }

  lemma EnoughFee(payTxFee: nat, fee: nat, bytes: nat)
    requires bytes < 1_500_000 && RequiredFee(payTxFee, bytes) <= fee && payTxFee <= fee <= FeeCap(payTxFee)
    ensures FeeCovers(payTxFee, fee, bytes)
  {
    hide RequiredFee;
    RequiredPerKilobyte(payTxFee, bytes);
    var kilobytes := 1 + bytes / 1000;
    if payTxFee >= 10_000 {
      MulMono(10_000, payTxFee, kilobytes);
    } else {
      MulMono(payTxFee, 10_000, kilobytes);
    }
  }

  /** Enough money is enough: if what is spendable covers the payees and the greatest fee there is, every transaction can be
      signed and none is too large, then no run of rounds ends in failure. */
  lemma EnoughSucceeds(w: Order, sign: Signer, fees: seq<nat>, rounds: seq<Outcome>)
    requires RoundsOk(w, sign, fees, rounds) && rounds != [] && Fits(w.byAge, w.outputs) && SumOut(w.vecSend) >= 0
    requires forall vin, vout :: sign(vin, vout).Some? && sign(vin, vout).value < 1_500_000
    requires (if w.controlled then Total(Entries(w.outputs)) else Spendable(w.outputs, w.spendTime, 0, 1))
             >= SumOut(w.vecSend) + FeeCap(w.payTxFee)
    ensures var last := rounds[|rounds| - 1]; last.Signed? && last.built.bytes < 1_500_000
  {
    hide SumOut, Total, Spendable, Insufficient, Drafted, RequiredFee;
    var n := |rounds| - 1;
    FeesStayCapped(w, sign, fees, rounds, n);
    assert RoundOk(w, sign, fees[n], rounds[n]);
    InsufficientMeans(w.byAge, Loosest(SumOut(w.vecSend) + fees[n], w.spendTime), w.outputs);
  }

  lemma FeesStayCapped(w: Order, sign: Signer, fees: seq<nat>, rounds: seq<Outcome>, n: nat)
    requires RoundsOk(w, sign, fees, rounds) && n < |rounds|
    ensures fees[n] <= FeeCap(w.payTxFee)
  {
    hide RoundOk, RequiredFee;
    FeeIsCapped(w.payTxFee, 0);
    if n > 0 {
      assert LeadsOn(w.payTxFee, fees[n - 1], rounds[n - 1], fees[n]);
      FeeIsCapped(w.payTxFee, rounds[n - 1].built.bytes);
    }
  }
}
