/**
 * The option-chain analysis: the three strikes around the entered price, the
 * '-' placeholder read as zero, and the two strategies that turn call and put
 * totals into a bearish or bullish strike recommendation when the larger
 * total is less than 225 times the smaller one.
 */
module OptionChain {
  import opened Seqs

  /** nearest_strikes: the multiple of 100 at or below the strike, then 50 and 100 above it. */
  function NearestStrikes(strike: int): (r: seq<int>)
    ensures |r| == 3
    ensures r[0] % 100 == 0 && r[0] <= strike < r[0] + 100
    ensures r[1] == r[0] + 50 && r[2] == r[0] + 100
  {
    var base := (strike / 100) * 100;
    [base, base + 50, base + 100]
  }

  /** The base is the only multiple of 100 within 100 at or below the strike. */
  lemma BaseUnique(strike: int, b: int)
    requires b % 100 == 0 && b <= strike < b + 100
    ensures b == NearestStrikes(strike)[0]
  {
    var c := NearestStrikes(strike)[0];
    assert b == 100 * (b / 100) && c == 100 * (c / 100);
  }

  /** A field of the chain: its text, or a number once converted. */
  datatype Field = Text(s: string) | Number(v: real)

  /** check_digit: the placeholder '-' becomes 0, every other value is kept. */
  function CheckDigit(x: Field): (r: Field)
    ensures x == Text("-") ==> r == Number(0.0)
    ensures x != Text("-") ==> r == x
    ensures r != Text("-")
  {
    if x == Text("-") then Number(0.0) else x
  }

  /** Applying check_digit a second time (as the strike rows get) changes nothing. */
  lemma CheckDigitIdempotent(x: Field)
    ensures CheckDigit(CheckDigit(x)) == CheckDigit(x)
  {
  }

  /**
   * The larger total over the smaller, or None where the float division by
   * zero gives inf or nan (neither of which is below 225).
   */
  function Ratio(call: real, put: real): (r: Option<real>)
    ensures r.None? <==> (if call > put then put == 0.0 else call == 0.0)
    ensures r.Some? && call > put ==> r.value * put == call
    ensures r.Some? && call <= put ==> r.value * call == put
    ensures call > 0.0 && put > 0.0 ==> r.Some? && r.value >= 1.0
  {
    if call > put then
      (if put == 0.0 then None else if put > 0.0 then QuotientAtLeastOne(call, put); Some(call / put) else Some(call / put))
    else (if call == 0.0 then None else if call > 0.0 then QuotientAtLeastOne(put, call); Some(put / call) else Some(put / call))
  }

  /** The ratio does not depend on which side is the call side, when the totals differ. */
  lemma RatioSymmetric(call: real, put: real)
    requires call != put
    ensures Ratio(call, put) == Ratio(put, call)
  {
  }

  /** The ratio gate of both strategies. */
  predicate Gate(call: real, put: real)
  {
    var r := Ratio(call, put);
    r.Some? && r.value < 225.0
  }

  /** A recommendation: none, or the strikes to buy on a bearish or a bullish reading. */
  datatype Signal = NoSignal | Bearish(buy: seq<int>) | Bullish(buy: seq<int>)

  /** The first strategy on the open-interest totals: bearish buys the highest strike, bullish the lowest. */
  function FirstStrategy(strike: int, totalCall: real, totalPut: real): (s: Signal)
    ensures s == NoSignal <==> !Gate(totalCall, totalPut)
    ensures s.Bearish? <==> Gate(totalCall, totalPut) && totalCall - totalPut > 0.0
    ensures s.Bearish? ==> s.buy == [NearestStrikes(strike)[2]]
    ensures s.Bullish? ==> s.buy == [NearestStrikes(strike)[0]]
  {
    var strikes := NearestStrikes(strike);
    var difference := totalCall - totalPut;
    if !Gate(totalCall, totalPut) then NoSignal
    else if difference > 0.0 then Bearish([strikes[2]])
    else Bullish([strikes[0]])
  }

  /** The second strategy on the price-weighted changes: two strikes, 100 apart, beyond the nearest ones. */
  function SecondStrategy(strike: int, sumCall: real, sumPut: real): (s: Signal)
    ensures s == NoSignal <==> !Gate(sumCall, sumPut)
    ensures s.Bearish? <==> Gate(sumCall, sumPut) && sumCall > sumPut
    ensures s.Bearish? ==> s.buy == [NearestStrikes(strike)[2], NearestStrikes(strike)[2] + 100]
    ensures s.Bullish? ==> s.buy == [NearestStrikes(strike)[0], NearestStrikes(strike)[0] - 100]
  {
    var strikes := NearestStrikes(strike);
    if !Gate(sumCall, sumPut) then NoSignal
    else if sumCall > sumPut then Bearish([strikes[2], strikes[2] + 100])
    else Bullish([strikes[0], strikes[0] - 100])
  }

  /**
   * Where the strikes lie: a bearish reading buys only strikes above the
   * entered price, a bullish one only strikes at or below it, all multiples of 100.
   */
  lemma SignalSides(strike: int, call: real, put: real)
    ensures var s := FirstStrategy(strike, call, put);
      (s.Bearish? ==> forall k :: 0 <= k < |s.buy| ==> s.buy[k] > strike && s.buy[k] % 100 == 0)
      && (s.Bullish? ==> forall k :: 0 <= k < |s.buy| ==> s.buy[k] <= strike && s.buy[k] % 100 == 0)
    ensures var s := SecondStrategy(strike, call, put);
      (s.Bearish? ==> forall k :: 0 <= k < |s.buy| ==> s.buy[k] > strike && s.buy[k] % 100 == 0)
      && (s.Bullish? ==> forall k :: 0 <= k < |s.buy| ==> s.buy[k] <= strike && s.buy[k] % 100 == 0)
  {
    var b := NearestStrikes(strike)[0];
    assert (b + 100) % 100 == 0 && (b + 200) % 100 == 0 && (b - 100) % 100 == 0;
  }

  /** Swapping the call and put totals swaps a bearish reading for a bullish one, for unequal totals. */
  lemma SecondStrategySwap(strike: int, call: real, put: real)
    requires call != put
    ensures SecondStrategy(strike, call, put).Bearish? <==> SecondStrategy(strike, put, call).Bullish?
    ensures SecondStrategy(strike, call, put) == NoSignal <==> SecondStrategy(strike, put, call) == NoSignal
  {
    RatioSymmetric(call, put);
  }
}
