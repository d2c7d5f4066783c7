/**
 * The Monte Carlo layer of bet.py: `run_strategy`, which counts the won
 * trials of one strategy, and the loop of `run` that runs every catalog
 * strategy in registration order and keeps the best one.
 */
module Simulation {
  import opened Wrappers
  import opened Rules
  import opened Trial
  import opened Catalog

  /** Whether the trial with these coin flips is won. */
  predicate TrialWon(s: Strategy, outcomes: seq<bool>)
  {
    Play(s, Init(s.cfg), outcomes).won
  }

  /** The number of won trials, one trial per outcome sequence. */
  function Wins(s: Strategy, trials: seq<seq<bool>>): (r: nat)
    ensures r <= |trials|
    decreases |trials|
  {
    if trials == [] then 0
    else Wins(s, trials[..|trials| - 1]) + (if TrialWon(s, trials[|trials| - 1]) then 1 else 0)
  }

  /** Counting over two batches of trials is the sum of their counts. */
  lemma {:induction false} WinsAppend(s: Strategy, a: seq<seq<bool>>, b: seq<seq<bool>>)
    ensures Wins(s, a + b) == Wins(s, a) + Wins(s, b)
    decreases |b|
  {
    if b == [] {
      assert a + b == a;
    } else {
      assert (a + b)[..|a + b| - 1] == a + b[..|b| - 1];
      WinsAppend(s, a, b[..|b| - 1]);
    }
  }

  /** The win count never decreases as more trials of the same stream are
      run. */
  lemma WinsPrefixMonotone(s: Strategy, trials: seq<seq<bool>>, k: nat)
    requires k <= |trials|
    ensures Wins(s, trials[..k]) <= Wins(s, trials)
  {
    assert trials == trials[..k] + trials[k..];
    WinsAppend(s, trials[..k], trials[k..]);
  }

  /** All trials are won exactly when the count is the number of trials, and
      none exactly when it is 0. */
  lemma {:induction false} WinsExtremes(s: Strategy, trials: seq<seq<bool>>)
    ensures Wins(s, trials) == |trials| <==> forall i :: 0 <= i < |trials| ==> TrialWon(s, trials[i])
    ensures Wins(s, trials) == 0 <==> forall i :: 0 <= i < |trials| ==> !TrialWon(s, trials[i])
    decreases |trials|
  {
    if trials != [] {
      var init := trials[..|trials| - 1];
      WinsExtremes(s, init);
      assert forall i :: 0 <= i < |init| ==> init[i] == trials[i];
    }
  }

  /** `run_strategy`: runs the strategy once per outcome sequence and counts
      the wins. */
  method RunStrategy(s: Strategy, trials: seq<seq<bool>>) returns (nwins: nat)
    ensures nwins == Wins(s, trials)
    ensures nwins <= |trials|
  {
    nwins := 0;
    for i := 0 to |trials|
      invariant nwins == Wins(s, trials[..i])
    {
      var r := Trial.Run(s, trials[i]);
      assert trials[..i + 1][..i] == trials[..i];
      if r.won {
        nwins := nwins + 1;
      }
    }
    assert trials[..|trials|] == trials;
  }

  /** One output line of `run`: the name, its win count and the number of
      trials (the ratio is derived when the line is written). */
  datatype Row = Row(name: string, nwins: nat, n: nat)

  /** The selection state after some rows: `bestIndex` is the row `best`
      names, when there is one. It is the earliest row with the largest win
      count, and there is none when every count is 0 (the strict `>` of the
      selection). */
  ghost predicate BestSoFar(rows: seq<Row>, best: Option<string>, bestNwins: nat, bestIndex: nat)
  {
    && (forall i :: 0 <= i < |rows| ==> rows[i].nwins <= bestNwins)
    && (best.None? <==> bestNwins == 0)
    && (best.Some? ==> bestIndex < |rows| && rows[bestIndex].name == best.value && rows[bestIndex].nwins == bestNwins
                       && forall j :: 0 <= j < bestIndex ==> rows[j].nwins < bestNwins)
  }

  /** `best` and `bestNwins` are what the selection keeps after all `rows`. */
  ghost predicate IsBest(rows: seq<Row>, best: Option<string>, bestNwins: nat)
  {
    exists bestIndex: nat :: BestSoFar(rows, best, bestNwins, bestIndex)
  }

  /** One step of the strict `>` selection keeps the earliest maximum. */
  lemma SelectStep(rows: seq<Row>, best: Option<string>, bestNwins: nat, bestIndex: nat, row: Row)
    requires BestSoFar(rows, best, bestNwins, bestIndex)
    ensures row.nwins > bestNwins ==> BestSoFar(rows + [row], Some(row.name), row.nwins, |rows|)
    ensures row.nwins <= bestNwins ==> BestSoFar(rows + [row], best, bestNwins, bestIndex)
  {
  }

  /** The loop of `run` over a catalog dict registered from `entries`: runs
      each strategy in iteration order on its own `n` outcome sequences,
      emits one row per strategy and keeps the best one. */
  method RunCatalog(catalog: Dict, ghost entries: seq<Entry>, n: nat, trials: seq<seq<seq<bool>>>)
    returns (rows: seq<Row>, best: Option<string>, bestNwins: nat)
    requires Holds(catalog, entries)
    requires |trials| == |entries|
    requires forall i :: 0 <= i < |trials| ==> |trials[i]| == n
    ensures |rows| == |trials|
    ensures forall i :: 0 <= i < |rows| ==> rows[i] == Row(entries[i].0, Wins(entries[i].1, trials[i]), n)
    ensures IsBest(rows, best, bestNwins)
    ensures bestNwins <= n
  {
    var names := catalog.keys;
    assert |names| == |entries|;
    best, bestNwins := None, 0;
    rows := [];
    ghost var bestIndex: nat := 0;
    for i := 0 to |names|
      invariant |rows| == i
      invariant forall j :: 0 <= j < i ==> rows[j] == Row(entries[j].0, Wins(entries[j].1, trials[j]), n)
      invariant BestSoFar(rows, best, bestNwins, bestIndex)
      invariant bestNwins <= n
    {
      var name := names[i];
      assert name == entries[i].0 && name in catalog.values && catalog.values[name] == entries[i].1;
      var nwins := RunStrategy(catalog.values[name], trials[i]);
      SelectStep(rows, best, bestNwins, bestIndex, Row(name, nwins, n));
      if nwins > bestNwins {
        bestNwins := nwins;
        best := Some(name);
        bestIndex := i;
      }
      rows := rows + [Row(name, nwins, n)];
    }
    assert BestSoFar(rows, best, bestNwins, bestIndex);
  }

  /** `run`: builds the catalog and runs it; the i-th registered strategy
      plays the outcome sequences `trials[i]`. The number of trials is at
      least 1, because each output line divides by it. */
  method Run(start: int, target: int, winIsBetAmount: bool, n: nat, trials: seq<seq<seq<bool>>>)
    returns (rows: seq<Row>, best: Option<string>, bestNwins: nat)
    requires n >= 1
    requires |trials| == FixedCount(start) + 203
    requires forall i :: 0 <= i < |trials| ==> |trials[i]| == n
    ensures |rows| == |trials|
    ensures forall i :: 0 <= i < |rows| ==>
      var e := CatalogEntries(CatalogConfig(start, target, winIsBetAmount))[i];
      rows[i] == Row(e.0, Wins(e.1, trials[i]), n)
    ensures IsBest(rows, best, bestNwins)
    ensures bestNwins <= n
  {
    var strategies := new StrategiesToRun(start, target, winIsBetAmount);
    CatalogLayout(strategies.cfg);
    rows, best, bestNwins := RunCatalog(strategies.strategies, CatalogEntries(strategies.cfg), n, trials);
  }
}
