/**
 * One trial of the game: `Strategy.run` of bet.py.  The coin flips are the
 * supplied `outcomes` (true = the bet is won); `Play` is the trial as a
 * function of them and `Run` is the loop itself, proved equal to `Play`.
 */
module Trial {
  import opened Rules

  /** The loop variables of `run`. */
  datatype State = State(curr: int, totalBet: int, nsteps: nat)

  /** Why the loop stopped: its guard failed, the rule asked for more than
      the bankroll (the `break`), or the supplied coin flips ran out. */
  datatype Stop = GuardFailed | StakeTooLarge | OutOfOutcomes

  /** The end of a trial; `won` is what `run` returns. */
  datatype Result = Result(final: State, stop: Stop, won: bool)

  function Init(cfg: Config): State
  {
    State(cfg.start, 0, 0)
  }

  /** Settling one placed stake: a won flip adds it to the bankroll, a lost
      one takes it away; either way it is added to the total wagered. */
  function Settle(st: State, stake: int, win: bool): State
  {
    State(if win then st.curr + stake else st.curr - stake, st.totalBet + stake, st.nsteps + 1)
  }

  /** The trial from state `st` with the coin flips `outcomes`. */
  function Play(s: Strategy, st: State, outcomes: seq<bool>): (r: Result)
    ensures r.won == Won(s.cfg, r.final.curr, r.final.totalBet)
    ensures r.stop == GuardFailed <==> !ShouldBetAgain(s.cfg, r.final.curr, r.final.totalBet)
    ensures r.stop == StakeTooLarge ==> NextBet(s, r.final.curr, r.final.totalBet) > r.final.curr
    ensures st.nsteps <= r.final.nsteps <= st.nsteps + |outcomes|
    ensures r.stop == OutOfOutcomes ==> r.final.nsteps == st.nsteps + |outcomes|
    decreases |outcomes|
  {
    if !ShouldBetAgain(s.cfg, st.curr, st.totalBet) then
      Result(st, GuardFailed, Won(s.cfg, st.curr, st.totalBet))
    else if NextBet(s, st.curr, st.totalBet) > st.curr then
      Result(st, StakeTooLarge, Won(s.cfg, st.curr, st.totalBet))
    else if outcomes == [] then
      Result(st, OutOfOutcomes, Won(s.cfg, st.curr, st.totalBet))
    else
      Play(s, Settle(st, Stake(s, st.curr, st.totalBet), outcomes[0]), outcomes[1..])
  }

  /** `Strategy.run`: the loop over `curr`, `total_bet` and `nsteps`. */
  method Run(s: Strategy, outcomes: seq<bool>) returns (r: Result)
    ensures r == Play(s, Init(s.cfg), outcomes)
    ensures r.stop == GuardFailed && r.final.curr >= s.cfg.minBet ==> r.won
    ensures r.final.nsteps <= |outcomes|
  {
    var curr, totalBet, nsteps := s.cfg.start, 0, 0;
    var stop := GuardFailed;
    while ShouldBetAgain(s.cfg, curr, totalBet)
      invariant 0 <= nsteps <= |outcomes|
      invariant Play(s, Init(s.cfg), outcomes) == Play(s, State(curr, totalBet, nsteps), outcomes[nsteps..])
      decreases |outcomes| - nsteps
    {
      var bet := NextBet(s, curr, totalBet);
      if bet > curr {
        stop := StakeTooLarge;
        break;
      }
      if nsteps == |outcomes| {
        stop := OutOfOutcomes;
        break;
      }
      ghost var before := State(curr, totalBet, nsteps);
      assert outcomes[nsteps..][1..] == outcomes[nsteps + 1..];
      PlayStep(s, before, outcomes[nsteps..]);
      bet := Max(s.cfg.minBet, bet);
      var win := outcomes[nsteps];
      nsteps := nsteps + 1;
      totalBet := totalBet + bet;
      if win {
        curr := curr + bet;
      } else {
        curr := curr - bet;
      }
      assert State(curr, totalBet, nsteps) == Settle(before, bet, win);
    }
    r := Result(State(curr, totalBet, nsteps), stop, Won(s.cfg, curr, totalBet));
    ShouldBetAgainIffNotWon(s.cfg, curr, totalBet);
  }

  /** One iteration of the loop: the placed stake, which lies in
      `[min_bet, curr]`, is added to the total wagered, the step count grows
      by one, and the bankroll rises by the stake on a won flip and falls by
      it on a lost one. */
  lemma PlayStep(s: Strategy, st: State, outcomes: seq<bool>)
    requires ShouldBetAgain(s.cfg, st.curr, st.totalBet)
    requires NextBet(s, st.curr, st.totalBet) <= st.curr
    requires outcomes != []
    ensures s.cfg.minBet <= Stake(s, st.curr, st.totalBet) <= st.curr
    ensures Play(s, st, outcomes) == Play(s, Settle(st, Stake(s, st.curr, st.totalBet), outcomes[0]), outcomes[1..])
  {
  }

  /** With a non-negative minimum bet the bankroll never becomes negative,
      whatever the coin flips. */
  lemma {:induction false} PlaySolvent(s: Strategy, st: State, outcomes: seq<bool>)
    requires s.cfg.minBet >= 0 && st.curr >= 0
    ensures Play(s, st, outcomes).final.curr >= 0
    decreases |outcomes|
  {
    if ShouldBetAgain(s.cfg, st.curr, st.totalBet) && NextBet(s, st.curr, st.totalBet) <= st.curr && outcomes != [] {
      PlaySolvent(s, Settle(st, Stake(s, st.curr, st.totalBet), outcomes[0]), outcomes[1..]);
    }
  }

  /** Every step adds its stake to the total wagered and moves the bankroll
      by that same stake, so the total wagered only grows, and by at least
      the change of the bankroll. */
  lemma {:induction false} PlayWagerCoversMove(s: Strategy, st: State, outcomes: seq<bool>)
    requires s.cfg.minBet >= 0
    ensures var f := Play(s, st, outcomes).final;
      f.totalBet - st.totalBet >= Abs(f.curr - st.curr)
    decreases |outcomes|
  {
    if ShouldBetAgain(s.cfg, st.curr, st.totalBet) && NextBet(s, st.curr, st.totalBet) <= st.curr && outcomes != [] {
      var stake := Stake(s, st.curr, st.totalBet);
      var next := Settle(st, stake, outcomes[0]);
      PlayStep(s, st, outcomes);
      PlayWagerCoversMove(s, next, outcomes[1..]);
      assert Abs(next.curr - st.curr) == stake;
    }
  }

  /** For the same reason the change of the total wagered and the change of
      the bankroll always have the same parity. */
  lemma {:induction false} PlayParity(s: Strategy, st: State, outcomes: seq<bool>)
    ensures var f := Play(s, st, outcomes).final;
      Even(f.totalBet - st.totalBet + f.curr - st.curr)
    decreases |outcomes|
  {
    if ShouldBetAgain(s.cfg, st.curr, st.totalBet) && NextBet(s, st.curr, st.totalBet) <= st.curr && outcomes != [] {
      var stake := Stake(s, st.curr, st.totalBet);
      var next := Settle(st, stake, outcomes[0]);
      PlayParity(s, next, outcomes[1..]);
      var f := Play(s, next, outcomes[1..]).final;
      var rest := f.totalBet - next.totalBet + f.curr - next.curr;
      if outcomes[0] {
        assert f.totalBet - st.totalBet + f.curr - st.curr == rest + 2 * stake;
        EvenPlusTwice(rest, stake);
      }
    }
  }

  predicate Even(x: int) { x % 2 == 0 }

  lemma EvenPlusTwice(x: int, k: int)
    requires Even(x)
    ensures Even(x + 2 * k)
  {
  }

  /** The rules of `SafeRule` never end a trial through the `bet > curr` exit. */
  lemma SafeRuleNeverBreaks(s: Strategy, st: State, outcomes: seq<bool>)
    requires SafeRule(s)
    ensures Play(s, st, outcomes).stop != StakeTooLarge
  {
    var f := Play(s, st, outcomes).final;
    if Play(s, st, outcomes).stop == StakeTooLarge {
      NextBetWithinBankroll(s, f.curr, f.totalBet);
    }
  }

  /** In bet-amount mode with a minimum bet of at least 1, every step adds at
      least 1 to the total wagered and only happens below the target, so a
      trial takes at most `target` steps. */
  lemma {:induction false} BetAmountStepsBounded(s: Strategy, st: State, outcomes: seq<bool>)
    requires s.cfg.winIsBetAmount && s.cfg.minBet >= 1
    requires st.nsteps <= st.totalBet && st.nsteps <= Max(0, s.cfg.target)
    ensures Play(s, st, outcomes).final.nsteps <= Play(s, st, outcomes).final.totalBet
    ensures Play(s, st, outcomes).final.nsteps <= Max(0, s.cfg.target)
    decreases |outcomes|
  {
    if ShouldBetAgain(s.cfg, st.curr, st.totalBet) && NextBet(s, st.curr, st.totalBet) <= st.curr && outcomes != [] {
      BetAmountStepsBounded(s, Settle(st, Stake(s, st.curr, st.totalBet), outcomes[0]), outcomes[1..]);
    }
  }

  /** So in bet-amount mode `target` coin flips are always enough: the trial
      ends by its own rules, never for want of outcomes. */
  lemma BetAmountTerminates(s: Strategy, outcomes: seq<bool>)
    requires s.cfg.winIsBetAmount && s.cfg.minBet >= 1
    requires |outcomes| >= s.cfg.target
    ensures Play(s, Init(s.cfg), outcomes).stop != OutOfOutcomes
    ensures Play(s, Init(s.cfg), outcomes).final.nsteps <= Max(0, s.cfg.target)
  {
    BetAmountStepsBounded(s, Init(s.cfg), outcomes);
  }

  /** In bet-amount mode, once the bankroll covers the remainder, Kelly stakes
      it and the next flip ends the trial as a win, with exactly the target
      wagered when the minimum bet does not exceed the remainder. */
  lemma KellyLocksIn(s: Strategy, st: State, outcomes: seq<bool>)
    requires s.rule.Kelly? && s.cfg.winIsBetAmount
    requires ShouldBetAgain(s.cfg, st.curr, st.totalBet)
    requires st.curr >= s.cfg.target - st.totalBet
    requires outcomes != []
    ensures Play(s, st, outcomes).won
    ensures Play(s, st, outcomes).final.nsteps == st.nsteps + 1
    ensures s.cfg.minBet <= s.cfg.target - st.totalBet ==> Play(s, st, outcomes).final.totalBet == s.cfg.target
  {
    var next := Settle(st, Stake(s, st.curr, st.totalBet), outcomes[0]);
    PlayStep(s, st, outcomes);
    assert next.totalBet >= s.cfg.target;
    assert Play(s, next, outcomes[1..]).final == next;
  }

  /** The rules whose placed stake never exceeds what is still needed to
      reach the target in bet-amount mode. */
  predicate NeverOverbets(s: Strategy)
  {
    s.cfg.winIsBetAmount && s.cfg.minBet <= 1 && (s.rule.Kelly? || s.rule.MinBet?)
  }

  lemma StakeFitsTarget(s: Strategy, curr: int, totalBet: int)
    requires NeverOverbets(s)
    requires ShouldBetAgain(s.cfg, curr, totalBet) && NextBet(s, curr, totalBet) <= curr
    ensures Stake(s, curr, totalBet) <= s.cfg.target - totalBet
  {
    if s.rule.Kelly? {
      KellyStakesRemainder(s.cfg, curr, totalBet);
    }
  }

  /** Kelly and the min rule never wager beyond the target in bet-amount mode. */
  lemma {:induction false} PlayWithinTarget(s: Strategy, st: State, outcomes: seq<bool>)
    requires NeverOverbets(s)
    requires st.totalBet <= s.cfg.target
    ensures Play(s, st, outcomes).final.totalBet <= s.cfg.target
    decreases |outcomes|
  {
    if ShouldBetAgain(s.cfg, st.curr, st.totalBet) && NextBet(s, st.curr, st.totalBet) <= st.curr && outcomes != [] {
      StakeFitsTarget(s, st.curr, st.totalBet);
      PlayWithinTarget(s, Settle(st, Stake(s, st.curr, st.totalBet), outcomes[0]), outcomes[1..]);
    }
  }

  /** A starting bankroll below the minimum bet places no bet at all, and
      the trial is lost whenever the target lies above the starting state. */
  lemma BelowMinBetLoses(s: Strategy, outcomes: seq<bool>)
    requires s.cfg.start < s.cfg.minBet
    requires if s.cfg.winIsBetAmount then s.cfg.target > 0 else s.cfg.target > s.cfg.start
    ensures Play(s, Init(s.cfg), outcomes) == Result(Init(s.cfg), GuardFailed, false)
  {
  }

  /** All-in with a target twice the starting bankroll: a first winning flip
      doubles the bankroll and ends the trial as a win after one step (for
      instance a bankroll of 10 and a target of 20). */
  lemma AllInDoubles(cfg: Config, outcomes: seq<bool>)
    requires !cfg.winIsBetAmount && 1 <= cfg.start && cfg.minBet <= cfg.start
    requires cfg.target == 2 * cfg.start
    requires outcomes != [] && outcomes[0]
    ensures Play(Strategy(cfg, AllIn), Init(cfg), outcomes)
         == Result(State(cfg.target, cfg.start, 1), GuardFailed, true)
  {
    var s := Strategy(cfg, AllIn);
    var doubled := State(cfg.target, cfg.start, 1);
    PlayStep(s, Init(cfg), outcomes);
    assert Settle(Init(cfg), Stake(s, cfg.start, 0), true) == doubled;
    assert Play(s, doubled, outcomes[1..]) == Result(doubled, GuardFailed, true);
  }
}
