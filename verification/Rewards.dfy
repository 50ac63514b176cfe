/** What the reward schedules come to. */
module Rewards {
  import opened Primitives
  import opened Ledger

  /** New coins of all blocks from 1 to the height, if every one is proof of work. */
  function Created(height: nat, expected: bool): int {
    if height == 0 then 0
    else Created(height - 1, expected) + if expected then ExpectedCoinbase(height, 0, 0) else ProofOfWorkReward(height, 0, 0)
  }

  /** How many of the heights 1 to `height` lie between the two bounds, both included. */
  function HeightsIn(height: nat, from: nat, to: nat): nat {
    if height < from then 0 else if height <= to then height - from + 1 else if from <= to then to - from + 1 else 0
  }

  /** Ten blocks of a tenth of a coin, 345 of fifty million for the swap, then 5000 each up to height 980949 and 500 from
      there on. */
  lemma {:induction false} CreatedInAll(height: nat)
    ensures Created(height, false) ==
            HeightsIn(height, 1, 10) * 10_000_000 +
            HeightsIn(height, 11, 355) * 5_000_000_000_000_000 +
            HeightsIn(height, 356, 980_949) * 500_000_000_000 +
            (if height >= 980_950 then height - 980_949 else 0) * 50_000_000_000
  {
    if height > 0 {
      CreatedInAll(height - 1);
    }
  }

  /** What ConnectBlock expects differs by the 9050 switch-over blocks, which still create 5000. */
  lemma {:induction false} ExpectedInAll(height: nat)
    ensures Created(height, true) ==
            HeightsIn(height, 1, 10) * 10_000_000 +
            HeightsIn(height, 11, 355) * 5_000_000_000_000_000 +
            HeightsIn(height, 356, 989_999) * 500_000_000_000 +
            (if height >= 990_000 then height - 989_999 else 0) * 50_000_000_000
  {
    if height > 0 {
      ExpectedInAll(height - 1);
    }
  }

  /** Fees and supply do not enter: on top of the fees a block creates what the schedule says. */
  lemma RewardIsSchedule(height: nat, fees: int, supply: int)
    requires height > 0
    ensures ProofOfWorkReward(height, fees, supply) - fees == Created(height, false) - Created(height - 1, false)
    ensures ExpectedCoinbase(height, fees, supply) - fees == Created(height, true) - Created(height - 1, true)
  {
  }

  lemma QuotientBounds(n: nat, d: nat)
    requires d > 0
    ensures d * (n / d) <= n < d * (n / d) + d
  {
  }

  /** Coins that aged a year earn their rate, short of it by less than a thousandth and a unit: 250 per cent up to height
      20000 while the supply is below the cap, then 19 per cent. From height 980950 on a stake earns 500 coins whatever
      its age, so that the later rates of 4 and 1 per cent are never paid. */
  lemma StakeYear(coins: nat, fees: int, bestHeight: int, supply: int)
    ensures var earned := ProofOfStakeReward(365 * coins, fees, bestHeight, supply) - fees;
            && (bestHeight <= 20_000 && supply > 50_000_000_000 * 100_000_000 ==> earned == 0)
            && (bestHeight <= 20_000 && supply <= 50_000_000_000 * 100_000_000 ==> NearRate(earned, 250_000_000 * coins))
            && (20_000 < bestHeight < 980_950 ==> NearRate(earned, 19_000_000 * coins))
            && (bestHeight >= 980_950 ==> earned == 50_000_000_000)
  {
    if bestHeight < 980_950 {
      var rate := if bestHeight <= 20_000 then 250_000_000 else 19_000_000;
      assert StakeRate(bestHeight) == rate;
      var n := 365 * coins * rate * 33;
      assert n == 12_045 * (rate * coins);
      QuotientBounds(n, 12_053);
      assert n / POS_DIVISOR == n / 12_053;
    }
  }

  predicate NearRate(earned: int, nominal: nat) {
    earned <= nominal && 1000 * (earned + 1) > 999 * nominal
  }
}
