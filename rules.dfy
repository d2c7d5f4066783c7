/**
 * The betting rules of bet.py: the game configuration shared by every
 * strategy, the continuation test, the win condition and the stake rule of
 * each of the six strategy classes.
 */
module Rules {
  import opened Wrappers

  /** The fields `Strategy.__init__` stores; the win probability `p` is not
      modelled (coin flips are supplied as outcomes instead). */
  datatype Config = Config(start: int, target: int, minBet: int, winIsBetAmount: bool)

  /** One constructor per `get_next_bet` override.  The two fraction rules
      carry the fraction as a whole percentage `percent`/100. */
  datatype Rule =
    | AllIn
    | MinBet
    | Fixed(betSize: int)
    | Fraction(percent: int)
    | CumFraction(percent: int, startingBet: int)
    | Kelly

  /** A strategy object: its configuration and its stake rule. */
  datatype Strategy = Strategy(cfg: Config, rule: Rule)

  function Min(a: int, b: int): int { if a <= b then a else b }

  function Max(a: int, b: int): int { if a >= b then a else b }

  function Abs(x: int): int { if x < 0 then -x else x }

  /** `FractionCumulativeBetStrategy.__init__`: a missing starting bet
      defaults to the minimum bet. */
  function NewCumFraction(cfg: Config, percent: int, startingBet: Option<int>): Strategy
  {
    Strategy(cfg, CumFraction(percent, if startingBet.None? then cfg.minBet else startingBet.value))
  }

  /** The target condition: total wagered reaches the target in bet-amount
      mode, the bankroll reaches it otherwise. */
  predicate Won(cfg: Config, curr: int, totalBet: int)
  {
    if cfg.winIsBetAmount then totalBet >= cfg.target else curr >= cfg.target
  }

  /** `Strategy.should_bet_again`. */
  predicate ShouldBetAgain(cfg: Config, curr: int, totalBet: int)
  {
    if curr < cfg.minBet then false
    else if cfg.winIsBetAmount then totalBet < cfg.target
    else curr < cfg.target
  }

  /** The continuation test is "still solvent and not yet won". */
  lemma ShouldBetAgainIffNotWon(cfg: Config, curr: int, totalBet: int)
    ensures ShouldBetAgain(cfg, curr, totalBet) <==> curr >= cfg.minBet && !Won(cfg, curr, totalBet)
    ensures curr < cfg.minBet ==> !ShouldBetAgain(cfg, curr, totalBet)
  {
  }

  /** Python's `round` applied to the exact quotient num/den: the nearest
      integer, ties to the even one. */
  function RoundHalfEven(num: int, den: int): (r: int)
    requires den > 0
    ensures 2 * Abs(r * den - num) <= den
    ensures 2 * Abs(r * den - num) == den ==> r % 2 == 0
  {
    var q, rem := num / den, num % den;
    assert num == q * den + rem;
    if 2 * rem < den then q
    else if 2 * rem > den then q + 1
    else if q % 2 == 0 then q
    else q + 1
  }

  /** The rounded value is the unique nearest integer when there is no tie. */
  lemma RoundHalfEvenUnique(num: int, den: int, x: int)
    requires den > 0
    requires 2 * Abs(x * den - num) < den
    ensures RoundHalfEven(num, den) == x
  {
    var r := RoundHalfEven(num, den);
    var a, b := r * den - num, x * den - num;
    assert a - b == (r - x) * den;
    assert -den < a - b < den;
    if r > x {
      MulAtLeastOne(r - x, den);
    } else if r < x {
      assert (x - r) * den == b - a;
      MulAtLeastOne(x - r, den);
    }
  }

  lemma MulAtLeastOne(k: int, den: int)
    requires k >= 1 && den > 0
    ensures k * den >= den
  {
  }

  /** The stake `get_next_bet` returns for each strategy class. */
  function NextBet(s: Strategy, curr: int, totalBet: int): int
  {
    match s.rule
    case AllIn => curr
    case MinBet => s.cfg.minBet
    case Fixed(size) => Min(size, curr)
    case Fraction(percent) => RoundHalfEven(percent * curr, 100)
    case CumFraction(percent, startingBet) =>
      if totalBet == 0 then startingBet else RoundHalfEven(percent * totalBet, 100)
    case Kelly =>
      if s.cfg.winIsBetAmount then
        if curr >= s.cfg.target - totalBet then s.cfg.target - totalBet
        else Min((s.cfg.target - totalBet - curr + 1) / 2, curr)
      else Min(curr, s.cfg.target - curr)
  }

  /** The stake actually placed once `run` has accepted the rule's stake:
      raised to at least the minimum bet, and never above the bankroll. */
  function Stake(s: Strategy, curr: int, totalBet: int): (r: int)
    requires ShouldBetAgain(s.cfg, curr, totalBet)
    requires NextBet(s, curr, totalBet) <= curr
    ensures s.cfg.minBet <= r <= curr
    ensures NextBet(s, curr, totalBet) <= r
  {
    Max(s.cfg.minBet, NextBet(s, curr, totalBet))
  }

  /** The rules that can never ask for more than the bankroll while the
      continuation test holds. */
  predicate SafeRule(s: Strategy)
  {
    match s.rule
    case Fraction(percent) => 0 <= percent <= 100 && s.cfg.minBet >= 0
    case CumFraction(_, _) => false
    case _ => true
  }

  /** All-in, min, fixed and Kelly (and a fraction of at most 100%) never
      trigger the `bet > curr` exit of `run`. */
  lemma NextBetWithinBankroll(s: Strategy, curr: int, totalBet: int)
    requires SafeRule(s)
    requires ShouldBetAgain(s.cfg, curr, totalBet)
    ensures NextBet(s, curr, totalBet) <= curr
  {
    match s.rule
    case Fraction(percent) => FractionWithinBankroll(percent, curr);
    case _ =>
  }

  lemma FractionWithinBankroll(percent: int, curr: int)
    requires 0 <= percent <= 100 && curr >= 0
    ensures RoundHalfEven(percent * curr, 100) <= curr
  {
    var r := RoundHalfEven(percent * curr, 100);
    assert percent * curr <= 100 * curr by {
      assert (100 - percent) * curr >= 0;
    }
    assert 2 * (r * 100 - percent * curr) <= 100;
    assert (r - curr) * 100 <= 50;
  }

  /** A 100% fraction stakes the whole bankroll, exactly like all-in. */
  lemma FullFractionIsAllIn(cfg: Config, curr: int, totalBet: int)
    ensures NextBet(Strategy(cfg, Fraction(100)), curr, totalBet) == NextBet(Strategy(cfg, AllIn), curr, totalBet)
  {
    RoundHalfEvenUnique(100 * curr, 100, curr);
  }

  /** The cumulative-fraction rule opens with its starting bet, which is the
      minimum bet unless one is given. */
  lemma CumFractionFirstBet(cfg: Config, percent: int, startingBet: Option<int>, curr: int)
    ensures NextBet(NewCumFraction(cfg, percent, startingBet), curr, 0)
         == if startingBet.None? then cfg.minBet else startingBet.value
  {
  }

  /** In bet-amount mode, once the bankroll covers what is still needed,
      Kelly stakes exactly the remainder, and otherwise less than it. */
  lemma KellyStakesRemainder(cfg: Config, curr: int, totalBet: int)
    requires cfg.winIsBetAmount
    requires ShouldBetAgain(cfg, curr, totalBet)
    ensures curr >= cfg.target - totalBet ==> NextBet(Strategy(cfg, Kelly), curr, totalBet) == cfg.target - totalBet
    ensures curr < cfg.target - totalBet ==> NextBet(Strategy(cfg, Kelly), curr, totalBet) < cfg.target - totalBet
    ensures 1 <= NextBet(Strategy(cfg, Kelly), curr, totalBet) || curr < 1
  {
  }
}
