/**
 * The Martingale calculator: starting from a balance, bet `risk`, win every
 * round with an even 0-based index and lose every other one, double the bet
 * after a loss and reset it after a win, until the balance reaches the target
 * or cannot cover the next bet. Money is modelled as integers.
 */
module Martingale {

  /** The outcome recorded for a round; a won round also records its winnings. */
  datatype Outcome = Loss | Win(winnings: int)

  /** One entry of the steps list: round number (from 1), starting balance, bet, outcome, ending balance. */
  datatype Round = Round(round: nat, startingBalance: int, betPlaced: int, outcome: Outcome, endingBalance: int)

  /** The bet after a round: reset to risk after a win, doubled after a loss. */
  function NextBet(r: Round, risk: int): (b: int)
    ensures r.outcome.Win? ==> b == risk
    ensures r.outcome.Loss? ==> b == 2 * r.betPlaced
  {
    if r.outcome.Win? then risk else 2 * r.betPlaced
  }

  /** The balance after the rounds played so far. */
  function Balance(initial: int, steps: seq<Round>): int
  {
    if steps == [] then initial else steps[|steps| - 1].endingBalance
  }

  /** The bet the next round would place. */
  function Bet(risk: int, steps: seq<Round>): int
  {
    if steps == [] then risk else NextBet(steps[|steps| - 1], risk)
  }

  /** A round settled by the rules: the bet is covered, the 0-based index decides the outcome, and the balance moves accordingly. */
  predicate Settled(r: Round, rtr: int): (b: bool)
    ensures b ==> r.endingBalance - r.startingBalance == if r.outcome.Win? then r.betPlaced * (rtr - 1) else -r.betPlaced
    ensures b && r.outcome.Loss? ==> r.endingBalance >= 0
    ensures b ==> (r.outcome.Win? <==> r.round % 2 == 1)
  {
    && r.betPlaced <= r.startingBalance
    && (r.outcome.Win? <==> (r.round - 1) % 2 == 0)
    && (r.outcome.Loss? ==> r.endingBalance == r.startingBalance - r.betPlaced)
    && (r.outcome.Win? ==>
          r.outcome.winnings == r.betPlaced * rtr
          && r.endingBalance == r.startingBalance - r.betPlaced + r.outcome.winnings)
  }

  /** Round i opens on the state the earlier rounds left: its number, balance and bet, and the loop guard held. */
  predicate Opens(steps: seq<Round>, i: nat, initial: int, risk: int, target: int)
    requires i < |steps|
  {
    && steps[i].round == i + 1
    && steps[i].startingBalance == Balance(initial, steps[..i])
    && steps[i].betPlaced == Bet(risk, steps[..i])
    && steps[i].startingBalance < target
  }

  /** The steps list is the calculator's play from the initial balance, round by round. */
  predicate Played(steps: seq<Round>, initial: int, risk: int, rtr: int, target: int): (b: bool)
    ensures b && steps != [] ==> steps[0].startingBalance == initial && steps[0].betPlaced == risk
    ensures b ==> forall i :: 0 < i < |steps| ==> steps[i].startingBalance == steps[i - 1].endingBalance
  {
    forall i :: 0 <= i < |steps| ==> Opens(steps, i, initial, risk, target) && Settled(steps[i], rtr)
  }

  /** The loop has stopped: the target is reached or the balance cannot cover the next bet. */
  predicate Stopped(steps: seq<Round>, initial: int, risk: int, target: int): (b: bool)
    ensures steps == [] ==> (b <==> initial >= target || initial < risk)
  {
    !(Balance(initial, steps) < target && Balance(initial, steps) >= Bet(risk, steps))
  }

  lemma PlayedSnoc(steps: seq<Round>, r: Round, initial: int, risk: int, rtr: int, target: int)
    requires Played(steps, initial, risk, rtr, target)
    requires r.round == |steps| + 1 && r.startingBalance == Balance(initial, steps)
    requires r.betPlaced == Bet(risk, steps) && r.startingBalance < target && Settled(r, rtr)
    ensures Played(steps + [r], initial, risk, rtr, target)
  {
    var s := steps + [r];
    forall i | 0 <= i < |s|
      ensures Opens(s, i, initial, risk, target) && Settled(s[i], rtr)
    {
      assert s[..i] == if i < |steps| then steps[..i] else steps;
      if i < |steps| {
        assert Opens(steps, i, initial, risk, target);
      }
    }
  }

  /** The measure the loop decreases: twice the distance to the target, plus 3 * risk before a losing round. */
  function Distance(balance: int, rounds: nat, risk: int, target: int): nat
    requires risk > 0
  {
    if balance >= target then 0
    else 2 * (target - balance) + (if rounds % 2 == 1 then 3 * risk else 0)
  }

  /** A losing round, which bets risk, brings the measure down by risk at least. */
  lemma LossShrinks(balance: int, rounds: nat, risk: int, target: int)
    requires rounds % 2 == 1 && risk > 0 && balance < target
    ensures Distance(balance - risk, rounds + 1, risk, target) < Distance(balance, rounds, risk, target)
  {
  }

  /** A later winning round, which bets 2 * risk, brings the measure down as well. */
  lemma WinShrinks(balance: int, rounds: nat, risk: int, rtr: int, target: int)
    requires rounds % 2 == 0 && risk > 0 && rtr >= 2 && balance < target
    ensures Distance(balance - 2 * risk + 2 * risk * rtr, rounds + 1, risk, target) < Distance(balance, rounds, risk, target)
  {
    assert 2 * risk * rtr >= 4 * risk by {
      assert risk * rtr >= risk * 2;
    }
  }

  /**
   * calculate_martingale_rounds: the rounds played and the round count, or -1
   * when the target was not reached. The Streamlit form asks for a
   * risk-to-reward ratio of at least 10; a positive risk and a ratio of at
   * least 2 are what make the loop finish.
   */
  method CalculateMartingaleRounds(initialBalance: int, risk: int, riskToReward: int, target: int)
    returns (steps: seq<Round>, result: int)
    requires risk > 0 && riskToReward >= 2
    ensures Played(steps, initialBalance, risk, riskToReward, target)
    ensures Stopped(steps, initialBalance, risk, target)
    ensures result == if Balance(initialBalance, steps) >= target then |steps| else -1
    ensures initialBalance >= target ==> steps == [] && result == 0
  {
    var balance := initialBalance;
    var baseBet := risk;
    var rounds: nat := 0;
    steps := [];
    while balance < target && balance >= baseBet
      invariant Played(steps, initialBalance, risk, riskToReward, target)
      invariant rounds == |steps| && balance == Balance(initialBalance, steps) && baseBet == Bet(risk, steps)
      invariant baseBet == if rounds % 2 == 0 && rounds > 0 then 2 * risk else risk
      invariant initialBalance >= target ==> rounds == 0
      decreases if rounds == 0 then 1 else 0, Distance(balance, rounds, risk, target)
    {
      var start, bet := balance, baseBet;
      if rounds % 2 == 1 {
        LossShrinks(balance, rounds, risk, target);
      } else if rounds > 0 {
        WinShrinks(balance, rounds, risk, riskToReward, target);
      }
      var outcome: Outcome;
      balance := balance - baseBet;
      var win := rounds % 2 == 0;
      if !win {
        outcome := Loss;
        baseBet := baseBet * 2;
      } else {
        var winnings := baseBet * riskToReward;
        balance := balance + winnings;
        outcome := Win(winnings);
        baseBet := risk;
      }
      var r := Round(rounds + 1, start, bet, outcome, balance);
      PlayedSnoc(steps, r, initialBalance, risk, riskToReward, target);
      steps := steps + [r];
      rounds := rounds + 1;
    }
    result := if balance >= target then rounds else -1;
  }

  /** The bets alternate: risk on the first round and on every losing round, 2 * risk on every later winning round. */
  lemma {:induction false} BetPattern(steps: seq<Round>, initial: int, risk: int, rtr: int, target: int, i: nat)
    requires Played(steps, initial, risk, rtr, target)
    requires i < |steps|
    ensures steps[i].betPlaced == if i % 2 == 0 && i > 0 then 2 * risk else risk
  {
    assert Opens(steps, i, initial, risk, target);
    if i > 0 {
      BetPattern(steps, initial, risk, rtr, target, i - 1);
      assert Settled(steps[i - 1], rtr);
      assert steps[..i][i - 1] == steps[i - 1];
    } else {
      assert steps[..0] == [];
    }
  }

  /** A losing round and the winning round after it together change the balance by risk * (2 * rtr - 3). */
  lemma PairGain(steps: seq<Round>, initial: int, risk: int, rtr: int, target: int, i: nat)
    requires Played(steps, initial, risk, rtr, target)
    requires i % 2 == 1 && i + 1 < |steps|
    ensures steps[i + 1].endingBalance - steps[i].startingBalance == risk * (2 * rtr - 3)
  {
    BetPattern(steps, initial, risk, rtr, target, i);
    BetPattern(steps, initial, risk, rtr, target, i + 1);
    var lost, won := steps[i], steps[i + 1];
    assert Opens(steps, i, initial, risk, target) && Opens(steps, i + 1, initial, risk, target);
    assert Settled(lost, rtr) && Settled(won, rtr);
    assert won.startingBalance == lost.endingBalance;
    assert lost.outcome.Loss? && won.outcome.Win?;
    PairArithmetic(risk, rtr, lost.betPlaced, won.betPlaced);
  }

  lemma PairArithmetic(risk: int, rtr: int, lostBet: int, wonBet: int)
    requires lostBet == risk && wonBet == 2 * risk
    ensures wonBet * (rtr - 1) - lostBet == risk * (2 * rtr - 3)
  {
  }
}
