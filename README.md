# Betting-strategy simulator, modelled in Dafny

`bet.py` plays a biased coin-flip game many times under a catalog of betting
strategies and reports how often each strategy reaches its target before
ruin. A strategy chooses the next stake from the bankroll `curr` and the
total wagered so far `total_bet`. A trial keeps betting while the bankroll
covers the minimum bet and the target is not yet reached. The target is
either a total wagered (`win_is_bet_amount`) or a bankroll. `run_strategy`
counts the won trials of one strategy. `run` walks the catalog in
registration order and keeps the strategy with the most wins.

The model has five modules:

- `Wrappers` (wrappers.dfy): `Option`, standing for Python's `None`.
- `Rules` (rules.dfy): the configuration, the six stake rules
  (`get_next_bet`), the continuation test `should_bet_again` and the target
  condition. These are pure functions.
- `Trial` (trial.dfy): one trial. `Play` is the trial as a function of its
  coin flips. `Run` is the `while` loop of `Strategy.run` over `curr`,
  `total_bet` and `nsteps`, and it is proved equal to `Play`.
- `Catalog` (catalog.dfy): `StrategiesToRun`. It models the Python dict as
  its keys in insertion order plus a lookup table. It also models the
  f-string names (`Decimal`, with its inverse `ParseDecimal`) and the
  constructor's loops that fill the dict.
- `Simulation` (simulation.dfy): `run_strategy` as a counting loop and the
  selection loop of `run`, each proved against a specification.

The random source is replaced by data. One trial consumes a `seq<bool>` of
coin flips (true means the bet is won). `run_strategy` takes one such sequence
per trial. `run` takes one batch of sequences per catalog strategy.

The model keeps these details of bet.py as written:

- `run` raises every accepted stake to at least `min_bet` (bet.py:33), so a
  rule that asks for 0 or less still places `min_bet`.
- A trial stops as soon as `curr < min_bet` (bet.py:16-17).
- The min rule stakes `min_bet` itself (bet.py:55). The loop guard already
  ensures that `curr >= min_bet` holds.
- `FixedBetStrategy` takes `bet_size` as a required argument (bet.py:59).
- The constructor of `StrategiesToRun` always registers the fraction and
  cumulative-fraction sweeps (bet.py:132-139).
- Assigning an existing name to the dict replaces its strategy silently
  (bet.py:129-141). The model proves that the catalog's names are distinct,
  so no entry is ever replaced.

## Model

| member | source | states |
|---|---|---|
| Rules.Won | bet.py:42-45 | no contract; the body models the target condition returned at the end of `run`: `total_bet >= target` in bet-amount mode, `curr >= target` otherwise |
| Rules.ShouldBetAgain | bet.py:15-22 | no contract; the body models `should_bet_again`: false below `min_bet`, otherwise a comparison with the target chosen by the mode. `ShouldBetAgainIffNotWon` relates it to `Won` |
| Rules.ShouldBetAgainIffNotWon | bet.py:15-22 | betting continues exactly when the bankroll covers the minimum bet and the target condition does not yet hold; it is false whenever `curr < min_bet` |
| Rules.RoundHalfEven | bet.py:77 | the result is an integer nearest to num/den, and on a tie it is even (Python's `round`) |
| Rules.RoundHalfEvenUnique | bet.py:77 | without a tie, the integer within half a unit of num/den is the rounded value |
| Rules.NextBet | bet.py:48-106 | no contract; the body models the six `get_next_bet` methods, with the fraction rules on exact values rounded by `RoundHalfEven`. The lemmas below state its properties |
| Rules.NewCumFraction | bet.py:80-88 | no contract; the body models the constructor's default, where a missing starting bet becomes `min_bet`. `CumFractionFirstBet` states the effect |
| Rules.Stake | bet.py:29-33 | a stake the runner accepts, once raised to the minimum bet, lies in `[min_bet, curr]` and is at least what the rule asked for |
| Rules.NextBetWithinBankroll | bet.py:48-106 | while the guard holds, all-in, min, fixed, Kelly and any fraction of at most 100% ask for no more than the bankroll |
| Rules.FractionWithinBankroll | bet.py:76-77 | a fraction of at most 100% of a non-negative bankroll, rounded, never exceeds the bankroll |
| Rules.FullFractionIsAllIn | bet.py:69-77 | the 100% fraction rule stakes the same as all-in |
| Rules.CumFractionFirstBet | bet.py:85-92 | with nothing wagered yet, the cumulative-fraction rule stakes its starting bet, which is `min_bet` when none is given |
| Rules.KellyStakesRemainder | bet.py:99-104 | in bet-amount mode, Kelly stakes exactly the remainder `target - total_bet` once the bankroll covers it, and less than the remainder otherwise |
| Trial.Settle | bet.py:34-40 | no contract; the body models the update after a placed stake: `nsteps` grows by 1, `total_bet` by the stake, and `curr` rises or falls by it as the flip is won or lost |
| Trial.Play | bet.py:24-45 | the trial's result is the target condition on the final state; it stops on a failed guard exactly when the guard fails there; a `bet > curr` exit means the rule overbid; at most one step per coin flip |
| Trial.Run | bet.py:24-45 | the loop computes `Play` from the starting state; a guard exit with `curr >= min_bet` is a win |
| Trial.PlayStep | bet.py:30-40 | each iteration places a stake in `[min_bet, curr]` and continues the trial from the state `Settle` gives for that stake and the next flip |
| Trial.PlaySolvent | bet.py:29-40 | with a non-negative minimum bet and bankroll, the bankroll never becomes negative, whatever the coin flips |
| Trial.PlayWagerCoversMove | bet.py:33-40 | the total wagered never decreases, and it grows by at least the change of the bankroll |
| Trial.PlayParity | bet.py:35-40 | the total wagered and the bankroll change by amounts of equal parity (each step moves both by the same stake) |
| Trial.SafeRuleNeverBreaks | bet.py:30-32 | all-in, min, fixed, Kelly and fractions up to 100% never end a trial through the `bet > curr` exit |
| Trial.BetAmountStepsBounded | bet.py:29-35 | in bet-amount mode with `min_bet >= 1`, the number of steps never exceeds the total wagered or the target |
| Trial.BetAmountTerminates | bet.py:19-20 | in bet-amount mode with `min_bet >= 1`, `target` coin flips always suffice: the trial ends by its own rules within `target` steps |
| Trial.KellyLocksIn | bet.py:99-101 | once the bankroll covers the remainder, Kelly wins on the next flip, after exactly one more step, with exactly `target` wagered when `min_bet` does not exceed the remainder |
| Trial.StakeFitsTarget | bet.py:97-104 | in bet-amount mode with `min_bet <= 1`, the placed Kelly or min stake never exceeds what is still needed |
| Trial.PlayWithinTarget | bet.py:33-35 | in bet-amount mode with `min_bet <= 1`, Kelly and the min rule never wager beyond the target |
| Trial.BelowMinBetLoses | bet.py:16-17 | a starting bankroll below the minimum bet places no bet, and the trial is lost when the target lies above the start |
| Trial.AllInDoubles | bet.py:48-50 | all-in with the target at twice the start wins on a first winning flip: one step, the start wagered, the bankroll at the target |
| Simulation.Wins | bet.py:109-116 | the win count of n trials lies in `[0, n]` |
| Simulation.WinsAppend | bet.py:112-114 | counting two batches of trials gives the sum of their counts |
| Simulation.WinsPrefixMonotone | bet.py:112-114 | running more trials of the same stream never lowers the count |
| Simulation.WinsExtremes | bet.py:112-114 | the count is n exactly when every trial is won, and 0 exactly when none is |
| Simulation.RunStrategy | bet.py:109-116 | the loop's count is the number of won trials, at most n |
| Simulation.SelectStep | bet.py:163-165 | a strict `>` update keeps the earliest row with the largest count, and keeps `None` while all counts are 0 |
| Simulation.RunCatalog | bet.py:157-165 | one row per strategy in iteration order with its win count; `best` is the earliest strategy with the maximal count, and `None` when every count is 0 |
| Simulation.Run | bet.py:153-166 | with at least one trial per strategy (`nwins / n` divides by it), the rows follow the catalog's registration order, each with its strategy's win count, and the best one is selected as above |
| Catalog.Decimal | bet.py:129 | the f-string rendering of a bet size or percentage is a non-empty string of the digits `0`-`9`, with a leading `0` only for the number 0. `ParseDecimalOfDecimal` proves it reads back as the number |
| Catalog.Put | bet.py:129-131 | no contract; the body models `strategies[name] = ...`, which is also used at bet.py:133, 137 and 141. `PutKeepsValid` states its effect |
| Catalog.ParseDecimalOfDecimal | bet.py:129 | reading back a number's decimal name gives the number |
| Catalog.DecimalInjective | bet.py:128-129 | different numbers get different decimal names |
| Catalog.PutKeepsValid | bet.py:129-131 | dict assignment keeps the keys distinct and in step with the lookup table; a new key goes last, an old key keeps its place, and only its value changes |
| Catalog.FromListDistinct | bet.py:124-142 | assigning entries with distinct names gives a dict that iterates them in registration order and looks each up to its own strategy |
| Catalog.CatalogEntries | bet.py:124-141 | no contract; the body lists the registered (name, strategy) pairs in registration order: all, min, the fixed, fraction and cumulative-fraction sweeps, then kelly. The layout lemmas below state its shape |
| Catalog.CatalogNamesDistinct | bet.py:124-141 | all catalog names are distinct |
| Catalog.CatalogLayout | bet.py:124-141 | the catalog has `max(start, 0) + 203` entries (none fixed when `start < 1`), beginning with all and min and ending with kelly |
| Catalog.CatalogFixedAt | bet.py:128-131 | entry `1 + k` is `fixed_k`, a fixed bet of k, for k in 1..start |
| Catalog.CatalogFractionAt | bet.py:132-135 | the fraction sweep follows: `fraction_k` with k% for k in 1..100 |
| Catalog.CatalogCumFractionAt | bet.py:136-139 | then `cum_fraction_k` with k% and the default starting bet `min_bet` |
| Catalog.CatalogDict | bet.py:124-142 | the catalog dict holds every registered strategy, in registration order |
| Catalog.PutSweep | bet.py:128-139 | one numbered loop appends its entries for k = 1 .. last in order, and none when `last < 1` |
| Catalog.StrategiesToRun.constructor | bet.py:120-142 | the strategies dict is the catalog in registration order, with every name mapped to its strategy, and the minimum bet is 1 |

## Left out

- The win probability `p`, `random.uniform` and the float comparison `p >= q` (bet.py:36-37) are not modelled. The coin flips are supplied as boolean sequences.
- Rules.NextBet: the fraction and cumulative-fraction rules compute `k·x/100` exactly and round half to even. The source multiplies a float `k/100.0` and rounds the float, which can differ from the exact value near a tie. The model does not claim to reproduce the float behaviour.
- Trial.Run: a trial that needs more coin flips than it was given stops with `OutOfOutcomes` and is reported as not won (its guard still held). The source would keep drawing. `BetAmountTerminates` proves that `target` flips are enough in bet-amount mode. In bankroll mode the game is a random walk and no finite bound exists.
- Simulation.Run: each strategy gets its own batch of coin-flip sequences, where the source draws all trials from one shared random stream. Any split of that stream is such a batch.
- Catalog.PutSweep: the three numbered `for` loops of `StrategiesToRun.__init__` share one loop, which is called once per sweep.
- `target` is an integer here. Values from the command line are untyped in the source.
- `main` and argparse (bet.py:173-191), `setup_logging` and the logging calls, the CSV output, the float ratio `nwins / n` and the final `Best:` line are I/O and are not modelled. The selection result they print is modelled. With `n == 0` the division at bet.py:166 raises `ZeroDivisionError` after the first strategy, so `Simulation.Run` requires `n >= 1`.
- `StrategiesToRun.__iter__` is modelled as iteration over the dict's keys in insertion order.
