/**
 * The roulette strategy tester: a selection of numbers and groups is gathered
 * from check boxes, then a single bet is simulated over a spin history. The
 * simulator waits until the selection has missed `breakN` spins in a row,
 * then bets on it with stake 1, doubling the stake after every loss when
 * Martingale is on, and goes back to waiting after a hit.
 */
module Strategy {
  import opened Roulette

  /** The selection frame's check boxes: the five group boxes and one box per number 0..36. */
  datatype Ticks = Ticks(red: bool, black: bool, voisins: bool, orphelins: bool, tiers: bool,
                         numbers: seq<bool>)

  /** The numbers behind the five group boxes. */
  datatype GroupSets = GroupSets(red: set<int>, black: set<int>, voisins: set<int>, orphelins: set<int>,
                                 tiers: set<int>)

  /** The groups of the module: RED_NUMBERS, BLACK_NUMBERS, VOISINS, ORPHELINS and TIERS. */
  const TableGroups: GroupSets := GroupSets(RedNumbers, BlackNumbers, Voisins, Orphelins, Tiers)

  /** s grown by the group g when its box is ticked. */
  function AddIf(s: set<int>, ticked: bool, g: set<int>): (r: set<int>)
    ensures forall n :: n in r <==> n in s || (ticked && n in g)
  {
    if ticked then s + g else s
  }

  /** The numbers of the ticked group boxes, added in the order the boxes are read. */
  function Groups(g: GroupSets, t: Ticks): set<int>
  {
    AddIf(AddIf(AddIf(AddIf(AddIf({}, t.red, g.red), t.black, g.black), t.voisins, g.voisins),
                t.orphelins, g.orphelins), t.tiers, g.tiers)
  }

  /** base grown by the numbers below n whose box is ticked. */
  function Ticked(base: set<int>, boxes: seq<bool>, n: nat): (r: set<int>)
    requires n <= |boxes|
    ensures forall m :: m in r <==> m in base || (0 <= m < n && boxes[m])
  {
    if n == 0 then base
    else
      var s := Ticked(base, boxes, n - 1);
      if boxes[n - 1] then s + {n - 1} else s
  }

  /** The set of numbers a tick state stands for: the union of the ticked groups and ticked numbers. */
  function Selection(g: GroupSets, t: Ticks): (sel: set<int>)
    ensures forall n :: n in sel <==>
      (t.red && n in g.red) || (t.black && n in g.black) || (t.voisins && n in g.voisins)
      || (t.orphelins && n in g.orphelins) || (t.tiers && n in g.tiers)
      || (0 <= n < |t.numbers| && t.numbers[n])
  {
    Ticked(Groups(g, t), t.numbers, |t.numbers|)
  }

  /** gather_selection: grows the set group by group, then number by number. */
  method GatherSelection(g: GroupSets, t: Ticks) returns (numbers: set<int>)
    ensures numbers == Selection(g, t)
  {
    numbers := {};
    if t.red { numbers := numbers + g.red; }
    if t.black { numbers := numbers + g.black; }
    if t.voisins { numbers := numbers + g.voisins; }
    if t.orphelins { numbers := numbers + g.orphelins; }
    if t.tiers { numbers := numbers + g.tiers; }
    for n := 0 to |t.numbers|
      invariant numbers == Ticked(Groups(g, t), t.numbers, n)
    {
      if t.numbers[n] {
        numbers := numbers + {n};
      }
    }
  }

  /** With the module's groups and the 37 number boxes, a selection holds spins only. */
  lemma SelectionHoldsSpins(t: Ticks)
    requires |t.numbers| <= 37
    ensures forall n :: n in Selection(TableGroups, t) ==> IsSpin(n)
  {
    ColoursPartition();
    SectorsPartition();
  }

  /** The simulator's variables between two spins. */
  datatype State = State(profit: int, gap: int, bet: int, betting: bool)

  /** The fixed inputs of one simulation. */
  datatype Config = Config(selection: set<int>, breakN: int, martingale: bool)

  /** profit = 0, gap = 0, bet = 1, betting = False */
  const Initial: State := State(0, 0, 1, false)

  /**
   * One spin of the loop in simulate: profit moves only while betting, by the
   * stake; a hit always ends idle with gap 0; a loss while betting keeps betting;
   * betting starts only when the gap reaches break_n, with stake 1.
   */
  function Step(c: Config, s: State, num: int): (r: State)
    ensures !s.betting ==> r.profit == s.profit
    ensures s.betting ==> r.profit == if num in c.selection then s.profit + s.bet else s.profit - s.bet
    ensures num in c.selection ==> !r.betting && r.gap == 0
    ensures s.betting && num !in c.selection ==> r.betting
    ensures !s.betting && r.betting ==> r.bet == 1 && r.gap >= c.breakN
  {
    if s.betting then
      if num in c.selection then State(s.profit + s.bet, 0, 1, false)
      else State(s.profit - s.bet, s.gap, if c.martingale then s.bet * 2 else s.bet, true)
    else if num in c.selection then s.(gap := 0)
    else if s.gap + 1 >= c.breakN then State(s.profit, s.gap + 1, 1, true)
    else s.(gap := s.gap + 1)
  }

  /** The state after the given spins, starting from s; a run ending on a hit ends idle with gap 0. */
  function Run(c: Config, s: State, spins: seq<int>): (r: State)
    ensures spins != [] && spins[|spins| - 1] in c.selection ==> !r.betting && r.gap == 0
  {
    if spins == [] then s else Step(c, Run(c, s, spins[..|spins| - 1]), spins[|spins| - 1])
  }

  /** simulate: the total profit over the spins. */
  method Simulate(spins: seq<int>, selection: set<int>, breakN: int, martingale: bool)
    returns (profit: int)
    ensures profit == Run(Config(selection, breakN, martingale), Initial, spins).profit
    ensures !martingale ==> -|spins| <= profit <= |spins|
  {
    ghost var c := Config(selection, breakN, martingale);
    profit := 0;
    var gap := 0;
    var bet := 1;
    var betting := false;
    for i := 0 to |spins|
      invariant State(profit, gap, bet, betting) == Run(c, Initial, spins[..i])
    {
      var num := spins[i];
      if betting {
        if num in selection {
          profit := profit + bet;
          bet := 1;
          betting := false;
          gap := 0;
        } else {
          profit := profit - bet;
          if martingale {
            bet := bet * 2;
          }
        }
      } else {
        if num in selection {
          gap := 0;
        } else {
          gap := gap + 1;
          if gap >= breakN {
            betting := true;
            bet := 1;
          }
        }
      }
      assert spins[..i + 1][..i] == spins[..i];
    }
    assert spins[..|spins|] == spins;
    if !martingale {
      FlatStakeBound(c, Initial, spins);
    }
  }

  /** What run_test reports. */
  datatype TestOutcome = NoSelection | TotalProfit(profit: int)

  /** run_test, once the spin history is loaded: refuses an empty selection, otherwise simulates. */
  method RunTest(spins: seq<int>, t: Ticks, breakN: int, martingale: bool) returns (r: TestOutcome)
    ensures r == NoSelection <==> Selection(TableGroups, t) == {}
    ensures r.TotalProfit? ==> r.profit == Run(Config(Selection(TableGroups, t), breakN, martingale), Initial, spins).profit
  {
    var selection := GatherSelection(TableGroups, t);
    if selection == {} {
      return NoSelection;
    }
    var profit := Simulate(spins, selection, breakN, martingale);
    r := TotalProfit(profit);
  }

  lemma {:induction false} RunAppend(c: Config, s: State, a: seq<int>, b: seq<int>)
    ensures Run(c, s, a + b) == Run(c, Run(c, s, a), b)
    decreases |b|
  {
    if b == [] {
      assert a + b == a;
    } else {
      assert (a + b)[..|a + b| - 1] == a + b[..|b| - 1];
      RunAppend(c, s, a, b[..|b| - 1]);
    }
  }

  /** While waiting, a spin never changes the profit; a hit resets the gap. */
  lemma IdleStep(c: Config, s: State, num: int)
    requires !s.betting
    ensures Step(c, s, num).profit == s.profit
    ensures num in c.selection ==> Step(c, s, num) == s.(gap := 0)
  {
  }

  /** A hit while betting banks the stake and returns to waiting with stake 1 and gap 0. */
  lemma BettingHit(c: Config, s: State, num: int)
    requires s.betting && num in c.selection
    ensures Step(c, s, num) == State(s.profit + s.bet, 0, 1, false)
  {
  }

  /** The number of misses at the end of the spins, back to the last hit. */
  function TrailingMisses(selection: set<int>, spins: seq<int>): (k: nat)
    ensures k <= |spins|
    ensures forall i :: |spins| - k <= i < |spins| ==> spins[i] !in selection
    ensures k < |spins| ==> spins[|spins| - 1 - k] in selection
  {
    if spins == [] || spins[|spins| - 1] in selection then 0
    else 1 + TrailingMisses(selection, spins[..|spins| - 1])
  }

  /** From the start, a waiting simulator's gap is the number of misses since the last hit. */
  lemma {:induction false} IdleGapCountsMisses(c: Config, spins: seq<int>)
    ensures !Run(c, Initial, spins).betting ==>
      Run(c, Initial, spins).gap == TrailingMisses(c.selection, spins)
  {
    if spins != [] {
      IdleGapCountsMisses(c, spins[..|spins| - 1]);
    }
  }

  /**
   * Betting switches on exactly at the spin that makes `breakN` misses in a row
   * since the last hit, and always with stake 1.
   */
  lemma Activation(c: Config, spins: seq<int>, num: int)
    requires !Run(c, Initial, spins).betting
    ensures Step(c, Run(c, Initial, spins), num).betting <==>
      TrailingMisses(c.selection, spins + [num]) >= c.breakN && num !in c.selection
    ensures Step(c, Run(c, Initial, spins), num).betting ==> Step(c, Run(c, Initial, spins), num).bet == 1
  {
    IdleGapCountsMisses(c, spins);
    assert (spins + [num])[..|spins|] == spins;
  }

  /** 2^k */
  function Pow2(k: nat): (p: nat)
    ensures p >= 1
  {
    if k == 0 then 1 else 2 * Pow2(k - 1)
  }

  /** Under Martingale, k losses in a row multiply the stake by 2^k and cost stake*(2^k - 1). */
  lemma {:induction false} MartingaleLosses(c: Config, s: State, misses: seq<int>)
    requires c.martingale && s.betting
    requires forall i :: 0 <= i < |misses| ==> misses[i] !in c.selection
    ensures Run(c, s, misses) ==
      State(s.profit - s.bet * (Pow2(|misses|) - 1), s.gap, s.bet * Pow2(|misses|), true)
  {
    if misses != [] {
      var k := |misses|;
      MartingaleLosses(c, s, misses[..k - 1]);
      assert s.bet * Pow2(k) == s.bet * Pow2(k - 1) * 2;
    }
  }

  /** Without Martingale, k losses in a row keep the stake and cost k stakes. */
  lemma {:induction false} FlatLosses(c: Config, s: State, misses: seq<int>)
    requires !c.martingale && s.betting
    requires forall i :: 0 <= i < |misses| ==> misses[i] !in c.selection
    ensures Run(c, s, misses) == State(s.profit - |misses| * s.bet, s.gap, s.bet, true)
  {
    if misses != [] {
      FlatLosses(c, s, misses[..|misses| - 1]);
    }
  }

  /** A Martingale cycle, losses followed by a hit, nets exactly the first stake (+1 from stake 1). */
  lemma MartingaleCycle(c: Config, s: State, misses: seq<int>, hit: int)
    requires c.martingale && s.betting
    requires forall i :: 0 <= i < |misses| ==> misses[i] !in c.selection
    requires hit in c.selection
    ensures Run(c, s, misses + [hit]) == State(s.profit + s.bet, 0, 1, false)
  {
    assert (misses + [hit])[..|misses|] == misses;
    MartingaleLosses(c, s, misses);
  }

  /** Waiting through fewer than breakN misses only counts them. */
  lemma {:induction false} Waiting(c: Config, s: State, misses: seq<int>)
    requires !s.betting && s.gap >= 0 && s.gap + |misses| < c.breakN
    requires forall i :: 0 <= i < |misses| ==> misses[i] !in c.selection
    ensures Run(c, s, misses) == s.(gap := s.gap + |misses|)
  {
    if misses != [] {
      Waiting(c, s, misses[..|misses| - 1]);
    }
  }

  /** After a hit, exactly breakN misses in a row switch betting on with stake 1, and not before. */
  lemma WaitThenBet(c: Config, s: State, misses: seq<int>)
    requires !s.betting && s.gap == 0 && c.breakN >= 1 && |misses| == c.breakN
    requires forall i :: 0 <= i < |misses| ==> misses[i] !in c.selection
    ensures forall j :: 0 <= j < |misses| ==> Run(c, s, misses[..j]) == s.(gap := j)
    ensures Run(c, s, misses) == State(s.profit, c.breakN, 1, true)
  {
    forall j | 0 <= j < |misses|
      ensures Run(c, s, misses[..j]) == s.(gap := j)
    {
      Waiting(c, s, misses[..j]);
    }
    assert misses[..|misses| - 1] == misses[..c.breakN - 1];
  }

  /** Powers of two, tested without an existential. */
  predicate IsPowerOfTwo(b: int)
    decreases if b > 0 then b else 0
  {
    b == 1 || (b > 1 && b % 2 == 0 && IsPowerOfTwo(b / 2))
  }

  /** The stake invariant: 1 while waiting, 1 without Martingale, a power of two always. */
  ghost predicate StakeInvariant(c: Config, s: State) {
    s.gap >= 0 && IsPowerOfTwo(s.bet) && (!s.betting ==> s.bet == 1) && (!c.martingale ==> s.bet == 1)
  }

  lemma {:induction false} RunKeepsStakeInvariant(c: Config, s: State, spins: seq<int>)
    requires StakeInvariant(c, s)
    ensures StakeInvariant(c, Run(c, s, spins))
  {
    if spins != [] {
      RunKeepsStakeInvariant(c, s, spins[..|spins| - 1]);
      var t := Run(c, s, spins[..|spins| - 1]);
      assert t.bet * 2 / 2 == t.bet;
    }
  }

  /** Without Martingale every spin moves the profit by at most 1. */
  lemma {:induction false} FlatStakeBound(c: Config, s: State, spins: seq<int>)
    requires !c.martingale && s.bet == 1
    ensures Run(c, s, spins).bet == 1
    ensures -|spins| <= Run(c, s, spins).profit - s.profit <= |spins|
  {
    if spins != [] {
      FlatStakeBound(c, s, spins[..|spins| - 1]);
    }
  }
}
