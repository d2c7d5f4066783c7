/**
 * The strategy catalog of bet.py (`StrategiesToRun`): the named strategies
 * in registration order, held in a Python dictionary, which keeps its keys
 * in insertion order.
 */
module Catalog {
  import opened Wrappers
  import opened Rules

  function Digit(d: nat): char
    requires d < 10
  {
    (48 + d) as char
  }

  function DigitValue(c: char): int
  {
    c as int - 48
  }

  /** The decimal text of `n`, as an f-string renders a non-negative int:
      digits only, with no leading zero. */
  function Decimal(n: nat): (s: string)
    ensures |s| >= 1
    ensures forall i :: 0 <= i < |s| ==> '0' <= s[i] <= '9'
    ensures s[0] == '0' <==> n == 0
    decreases n
  {
    if n < 10 then [Digit(n)] else Decimal(n / 10) + [Digit(n % 10)]
  }

  /** Reading decimal text back, the inverse of `Decimal`. */
  function ParseDecimal(s: string): int
    decreases |s|
  {
    if s == [] then 0 else ParseDecimal(s[..|s| - 1]) * 10 + DigitValue(s[|s| - 1])
  }

  lemma {:induction false} ParseDecimalOfDecimal(n: nat)
    ensures ParseDecimal(Decimal(n)) == n
    decreases n
  {
    var s := Decimal(n);
    if n < 10 {
      assert s[..|s| - 1] == [];
    } else {
      assert s[..|s| - 1] == Decimal(n / 10);
      ParseDecimalOfDecimal(n / 10);
    }
  }

  /** Different numbers give different names. */
  lemma DecimalInjective(a: nat, b: nat)
    requires Decimal(a) == Decimal(b)
    ensures a == b
  {
    ParseDecimalOfDecimal(a);
    ParseDecimalOfDecimal(b);
  }

  predicate Distinct(names: seq<string>)
  {
    forall i, j :: 0 <= i < j < |names| ==> names[i] != names[j]
  }

  /** A Python dict from names to strategies: its keys in insertion order
      and its lookup table. */
  datatype Dict = Dict(keys: seq<string>, values: map<string, Strategy>)

  ghost predicate ValidDict(d: Dict)
  {
    Distinct(d.keys) && forall k :: k in d.values <==> k in d.keys
  }

  /** `d[k] = v`: a new key is appended to the iteration order, an existing
      one keeps its place; either way its lookup becomes `v`. */
  function Put(d: Dict, k: string, v: Strategy): Dict
  {
    if k in d.values then Dict(d.keys, d.values[k := v]) else Dict(d.keys + [k], d.values[k := v])
  }

  /** Assignment keeps a dict well formed: keys stay distinct and match the
      lookup table, the earlier keys keep their order, and only `k` changes. */
  lemma PutKeepsValid(d: Dict, k: string, v: Strategy)
    requires ValidDict(d)
    ensures ValidDict(Put(d, k, v))
    ensures Put(d, k, v).keys == if k in d.keys then d.keys else d.keys + [k]
    ensures k in Put(d, k, v).values && Put(d, k, v).values[k] == v
    ensures forall j :: j in d.values && j != k ==> j in Put(d, k, v).values && Put(d, k, v).values[j] == d.values[j]
  {
  }

  type Entry = (string, Strategy)

  function Names(es: seq<Entry>): (names: seq<string>)
    ensures |names| == |es|
    ensures forall i :: 0 <= i < |es| ==> names[i] == es[i].0
  {
    seq(|es|, i requires 0 <= i < |es| => es[i].0)
  }

  lemma NamesAppend(a: seq<Entry>, b: seq<Entry>)
    ensures Names(a + b) == Names(a) + Names(b)
  {
  }

  /** The dict obtained by assigning the entries one after the other. */
  function FromList(es: seq<Entry>): Dict
    decreases |es|
  {
    if es == [] then Dict([], map[])
    else Put(FromList(es[..|es| - 1]), es[|es| - 1].0, es[|es| - 1].1)
  }

  lemma FromListSnoc(es: seq<Entry>, e: Entry)
    ensures FromList(es + [e]) == Put(FromList(es), e.0, e.1)
  {
    assert (es + [e])[..|es|] == es;
  }

  /** The dict built from `es` holds exactly the entries of `es`, in order. */
  ghost predicate Holds(d: Dict, es: seq<Entry>)
  {
    && ValidDict(d)
    && d.keys == Names(es)
    && forall i :: 0 <= i < |es| ==> es[i].0 in d.values && d.values[es[i].0] == es[i].1
  }

  lemma HoldsSnoc(d: Dict, es: seq<Entry>, e: Entry)
    requires Holds(d, es) && e.0 !in Names(es)
    ensures Holds(Put(d, e.0, e.1), es + [e])
  {
    PutKeepsValid(d, e.0, e.1);
    assert Names(es + [e]) == Names(es) + [e.0];
    forall i | 0 <= i < |es|
      ensures (es + [e])[i].0 in Put(d, e.0, e.1).values && Put(d, e.0, e.1).values[(es + [e])[i].0] == (es + [e])[i].1
    {
      assert (es + [e])[i] == es[i];
      assert es[i].0 != e.0 by {
        assert Names(es)[i] == es[i].0;
      }
    }
  }

  /** With distinct names, the dict iterates the names in registration order
      and looks each one up to its own strategy. */
  lemma {:induction false} FromListDistinct(es: seq<Entry>)
    requires Distinct(Names(es))
    ensures Holds(FromList(es), es)
    decreases |es|
  {
    if es != [] {
      var init, last := es[..|es| - 1], es[|es| - 1];
      assert es == init + [last];
      assert Names(es) == Names(init) + [last.0];
      FromListDistinct(init);
      assert last.0 !in Names(init) by {
        forall i | 0 <= i < |init| ensures Names(init)[i] != last.0 {
          assert Names(es)[i] != Names(es)[|es| - 1];
        }
      }
      HoldsSnoc(FromList(init), init, last);
    }
  }

  /** The three numbered sweeps of the catalog. */
  datatype Sweep = FixedSweep | FractionSweep | CumFractionSweep

  function SweepPrefix(kind: Sweep): string
  {
    match kind
    case FixedSweep => "fixed_"
    case FractionSweep => "fraction_"
    case CumFractionSweep => "cum_fraction_"
  }

  /** The k-th strategy of a sweep: a fixed bet of k, or a fraction of k%
      (the cumulative one with its default starting bet). */
  function SweepStrategy(cfg: Config, kind: Sweep, k: nat): Strategy
  {
    match kind
    case FixedSweep => Strategy(cfg, Fixed(k))
    case FractionSweep => Strategy(cfg, Fraction(k))
    case CumFractionSweep => NewCumFraction(cfg, k, None)
  }

  function SweepEntry(cfg: Config, kind: Sweep, k: nat): Entry
  {
    (SweepPrefix(kind) + Decimal(k), SweepStrategy(cfg, kind, k))
  }

  /** The entries for k = 1 .. n. */
  function SweepEntries(cfg: Config, kind: Sweep, n: nat): (es: seq<Entry>)
    ensures |es| == n
    ensures forall i :: 0 <= i < n ==> es[i] == SweepEntry(cfg, kind, i + 1)
  {
    seq(n, i requires 0 <= i < n => SweepEntry(cfg, kind, i + 1))
  }

  lemma SweepSnoc(cfg: Config, kind: Sweep, n: nat)
    ensures SweepEntries(cfg, kind, n + 1) == SweepEntries(cfg, kind, n) + [SweepEntry(cfg, kind, n + 1)]
  {
  }

  function FixedCount(start: int): nat
  {
    if start > 0 then start else 0
  }

  /** The configuration every catalog strategy shares: the default minimum
      bet of 1. */
  function CatalogConfig(start: int, target: int, winIsBetAmount: bool): Config
  {
    Config(start, target, 1, winIsBetAmount)
  }

  function Head(cfg: Config): seq<Entry>
  {
    [("all", Strategy(cfg, AllIn)), ("min", Strategy(cfg, MinBet))]
  }

  /** The catalog in registration order. */
  function CatalogEntries(cfg: Config): seq<Entry>
  {
    Head(cfg)
      + SweepEntries(cfg, FixedSweep, FixedCount(cfg.start))
      + SweepEntries(cfg, FractionSweep, 100)
      + SweepEntries(cfg, CumFractionSweep, 100)
      + [("kelly", Strategy(cfg, Kelly))]
  }

  /** The first two letters of a name, which tell its group apart. */
  function Tag(name: string): string
  {
    if |name| >= 2 then name[..2] else name
  }

  function SweepTag(kind: Sweep): string
  {
    match kind
    case FixedSweep => "fi"
    case FractionSweep => "fr"
    case CumFractionSweep => "cu"
  }

  ghost predicate Tagged(names: seq<string>, tags: set<string>)
  {
    forall i :: 0 <= i < |names| ==> Tag(names[i]) in tags
  }

  lemma SweepNames(cfg: Config, kind: Sweep, n: nat)
    ensures Distinct(Names(SweepEntries(cfg, kind, n)))
    ensures Tagged(Names(SweepEntries(cfg, kind, n)), {SweepTag(kind)})
  {
    var names := Names(SweepEntries(cfg, kind, n));
    var p := SweepPrefix(kind);
    forall i, j | 0 <= i < j < n ensures names[i] != names[j] {
      if names[i] == names[j] {
        assert names[i][|p|..] == Decimal(i + 1);
        assert names[j][|p|..] == Decimal(j + 1);
        DecimalInjective(i + 1, j + 1);
      }
    }
    assert p[..2] == SweepTag(kind);
    forall i | 0 <= i < n ensures Tag(names[i]) == SweepTag(kind) {
      assert names[i] == p + Decimal(i + 1);
      assert names[i][..2] == p[..2];
    }
  }

  lemma DistinctJoin(a: seq<string>, b: seq<string>, ta: set<string>, tb: set<string>)
    requires Distinct(a) && Distinct(b) && ta !! tb
    requires Tagged(a, ta) && Tagged(b, tb)
    ensures Distinct(a + b) && Tagged(a + b, ta + tb)
  {
    forall i, j | 0 <= i < j < |a + b| ensures (a + b)[i] != (a + b)[j] {
      if i < |a| && j >= |a| {
        assert Tag(a[i]) in ta && Tag(b[j - |a|]) in tb;
      }
    }
  }

  /** No two catalog names collide, so the dict holds every registered
      strategy. */
  lemma CatalogNamesDistinct(cfg: Config)
    ensures Distinct(Names(CatalogEntries(cfg)))
  {
    var fixed := SweepEntries(cfg, FixedSweep, FixedCount(cfg.start));
    var fraction := SweepEntries(cfg, FractionSweep, 100);
    var cum := SweepEntries(cfg, CumFractionSweep, 100);
    var kelly: seq<Entry> := [("kelly", Strategy(cfg, Kelly))];
    assert Tag("all") == "al" && Tag("min") == "mi" && Tag("kelly") == "ke";
    assert Names(Head(cfg)) == ["all", "min"];
    assert Names(kelly) == ["kelly"];
    assert Tagged(Names(Head(cfg)), {"al", "mi"});
    assert Tagged(Names(kelly), {"ke"});
    SweepNames(cfg, FixedSweep, FixedCount(cfg.start));
    SweepNames(cfg, FractionSweep, 100);
    SweepNames(cfg, CumFractionSweep, 100);
    NamesAppend(Head(cfg), fixed);
    NamesAppend(Head(cfg) + fixed, fraction);
    NamesAppend(Head(cfg) + fixed + fraction, cum);
    NamesAppend(Head(cfg) + fixed + fraction + cum, kelly);
    DistinctJoin(Names(Head(cfg)), Names(fixed), {"al", "mi"}, {"fi"});
    DistinctJoin(Names(Head(cfg) + fixed), Names(fraction), {"al", "mi", "fi"}, {"fr"});
    DistinctJoin(Names(Head(cfg) + fixed + fraction), Names(cum), {"al", "mi", "fi", "fr"}, {"cu"});
    DistinctJoin(Names(Head(cfg) + fixed + fraction + cum), Names(kelly), {"al", "mi", "fi", "fr", "cu"}, {"ke"});
  }

  /** The registration order: all, min, fixed_1 .. fixed_start,
      fraction_1 .. fraction_100, cum_fraction_1 .. cum_fraction_100, kelly. */
  lemma CatalogLayout(cfg: Config)
    ensures var es, f := CatalogEntries(cfg), FixedCount(cfg.start);
      && |es| == f + 203
      && es[0] == ("all", Strategy(cfg, AllIn))
      && es[1] == ("min", Strategy(cfg, MinBet))
      && es[f + 202] == ("kelly", Strategy(cfg, Kelly))
  {
  }

  lemma CatalogFixedAt(cfg: Config, k: int)
    requires 1 <= k <= FixedCount(cfg.start)
    ensures CatalogEntries(cfg)[1 + k] == ("fixed_" + Decimal(k), Strategy(cfg, Fixed(k)))
  {
    var head := Head(cfg) + SweepEntries(cfg, FixedSweep, FixedCount(cfg.start));
    assert head[1 + k] == SweepEntry(cfg, FixedSweep, k);
  }

  lemma CatalogFractionAt(cfg: Config, k: int)
    requires 1 <= k <= 100
    ensures CatalogEntries(cfg)[1 + FixedCount(cfg.start) + k] == ("fraction_" + Decimal(k), Strategy(cfg, Fraction(k)))
  {
    var f := FixedCount(cfg.start);
    var head := Head(cfg) + SweepEntries(cfg, FixedSweep, f);
    var mid := head + SweepEntries(cfg, FractionSweep, 100);
    assert mid[1 + f + k] == SweepEntry(cfg, FractionSweep, k);
  }

  lemma CatalogCumFractionAt(cfg: Config, k: int)
    requires 1 <= k <= 100
    ensures CatalogEntries(cfg)[101 + FixedCount(cfg.start) + k]
         == ("cum_fraction_" + Decimal(k), Strategy(cfg, CumFraction(k, cfg.minBet)))
  {
    var f := FixedCount(cfg.start);
    var mid := Head(cfg) + SweepEntries(cfg, FixedSweep, f) + SweepEntries(cfg, FractionSweep, 100);
    var all := mid + SweepEntries(cfg, CumFractionSweep, 100);
    assert all[101 + f + k] == SweepEntry(cfg, CumFractionSweep, k);
  }

  /** The catalog dict iterates every registered name, in registration
      order, and looks each up to its strategy. */
  lemma CatalogDict(cfg: Config)
    ensures Holds(FromList(CatalogEntries(cfg)), CatalogEntries(cfg))
  {
    CatalogNamesDistinct(cfg);
    FromListDistinct(CatalogEntries(cfg));
  }

  lemma SweepEmpty(es: seq<Entry>, cfg: Config, kind: Sweep)
    ensures es + SweepEntries(cfg, kind, 0) == es
  {
  }

  /** Assigning the next entry of a sweep extends the registered list by it. */
  lemma PutNext(es: seq<Entry>, cfg: Config, kind: Sweep, k: nat)
    ensures Put(FromList(es + SweepEntries(cfg, kind, k)), SweepPrefix(kind) + Decimal(k + 1), SweepStrategy(cfg, kind, k + 1))
         == FromList(es + SweepEntries(cfg, kind, k + 1))
  {
    SweepSnoc(cfg, kind, k);
    assert es + SweepEntries(cfg, kind, k + 1) == (es + SweepEntries(cfg, kind, k)) + [SweepEntry(cfg, kind, k + 1)];
    FromListSnoc(es + SweepEntries(cfg, kind, k), SweepEntry(cfg, kind, k + 1));
  }

  /** One of the numbered `for` loops of `StrategiesToRun.__init__`:
      assigns the sweep's entries for k = 1 .. last, in order (none when
      last < 1, as with an empty `range`). */
  method PutSweep(d: Dict, cfg: Config, kind: Sweep, last: int, ghost before: seq<Entry>) returns (r: Dict)
    requires d == FromList(before)
    ensures r == FromList(before + SweepEntries(cfg, kind, FixedCount(last)))
  {
    r := d;
    var k := 1;
    SweepEmpty(before, cfg, kind);
    while k <= last
      invariant 1 <= k <= FixedCount(last) + 1
      invariant r == FromList(before + SweepEntries(cfg, kind, k - 1))
    {
      PutNext(before, cfg, kind, k - 1);
      r := Put(r, SweepPrefix(kind) + Decimal(k), SweepStrategy(cfg, kind, k));
      k := k + 1;
    }
  }

  /** `StrategiesToRun`: built once from the command-line values and then
      only read. */
  class StrategiesToRun {
    const cfg: Config
    var strategies: Dict

    constructor (start: int, target: int, winIsBetAmount: bool)
      ensures cfg == CatalogConfig(start, target, winIsBetAmount)
      ensures strategies == FromList(CatalogEntries(cfg))
      ensures Holds(strategies, CatalogEntries(cfg))
    {
      var c := CatalogConfig(start, target, winIsBetAmount);
      cfg := c;
      var d := Put(Put(Dict([], map[]), "all", Strategy(c, AllIn)), "min", Strategy(c, MinBet));
      assert d == FromList(Head(c)) by {
        var h := Head(c);
        FromListSnoc([], h[0]);
        FromListSnoc([h[0]], h[1]);
        assert [] + [h[0]] == [h[0]] && [h[0]] + [h[1]] == h;
      }

      d := PutSweep(d, c, FixedSweep, start, Head(c));
      ghost var done := Head(c) + SweepEntries(c, FixedSweep, FixedCount(start));
      d := PutSweep(d, c, FractionSweep, 100, done);
      done := done + SweepEntries(c, FractionSweep, 100);
      d := PutSweep(d, c, CumFractionSweep, 100, done);
      done := done + SweepEntries(c, CumFractionSweep, 100);

      assert done + [("kelly", Strategy(c, Kelly))] == CatalogEntries(c);
      FromListSnoc(done, ("kelly", Strategy(c, Kelly)));
      d := Put(d, "kelly", Strategy(c, Kelly));
      strategies := d;
      CatalogDict(c);
    }
  }
}
