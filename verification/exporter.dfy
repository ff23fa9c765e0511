/**
 * The sampling side of the stocks exporter (monitoring/stocks-exporter/app.py):
 * the synthetic sample generator `synth`, the gauge writer `set_metrics`, and
 * the per-symbol decision made by `fetch_loop` in every refresh cycle.
 *
 * Two tables change: the last-price cache (symbol -> price) and the gauge
 * table (metric, symbol) -> value that the metrics endpoint serves. The class
 * also keeps the sequence of symbols for which the market-data provider was
 * asked, so that "the provider is not called" can be stated.
 *
 * Prices and indicator values are real numbers; the indicator computation on
 * the provider's price history is an opaque result, Fetched(sample) or Failed;
 * the random numbers `synth` draws are a parameter.
 */
module Exporter {
  import Tickers

  // ---------------------------------------------------------------------------
  // Data
  // ---------------------------------------------------------------------------

  /**
   * The fourteen gauges, each labelled by symbol: stock_price,
   * stock_scrape_success, stock_rsi14, stock_macd, stock_macd_signal,
   * stock_macd_hist, stock_bbp_20d, stock_return_{1d,5d,20d}_percent,
   * stock_vol_20d_annualized, stock_volume, stock_volume_avg_20d and
   * stock_volume_ratio.
   */
  datatype Metric =
    | Price | Ok | Rsi14 | Macd | MacdSignal | MacdHist | Bbp20d
    | Return1d | Return5d | Return20d | Vol20d | Volume | VolumeAvg20d | VolumeRatio

  /** One gauge series: a metric and the symbol label. */
  type Key = (Metric, string)

  /** The thirteen values published for a symbol (the record `d` of the source). */
  datatype Sample = Sample(
    price: real, rsi14: real, macd: real, macdSignal: real, macdHist: real, bbp: real,
    ret1: real, ret5: real, ret20: real, rv20: real, vNow: real, vAvg: real, vRatio: real)

  /** What the live path yields for a symbol: the provider's history turned into indicators, or an exception. */
  datatype Outcome = Fetched(sample: Sample) | Failed

  /**
   * The random numbers one call of `synth` draws, in the order it draws them:
   * random(), gauss(0, 0.002), gauss(0, 10), gauss(0, 1) three times,
   * uniform(0, 100), gauss(0, 1), gauss(0, 3), gauss(0, 6), gauss(25, 5),
   * randint(1000000, 5000000) twice and uniform(0.5, 2.5).
   */
  datatype Draws = Draws(
    unit: real, step: real, rsiNoise: real, macd: real, macdSignal: real, macdHist: real,
    bbp: real, ret1: real, ret5: real, ret20: real, rvNoise: real,
    vNow: int, vAvg: int, vRatio: real)

  /** The ranges the random-number generator guarantees for the bounded draws. */
  predicate DrawsInRange(r: Draws) {
    && 0.0 <= r.unit < 1.0
    && 0.0 <= r.bbp <= 100.0
    && 1_000_000 <= r.vNow <= 5_000_000
    && 1_000_000 <= r.vAvg <= 5_000_000
    && 0.5 <= r.vRatio <= 2.5
  }

  /**
   * Settings read once at start-up: TICKERS, MAX_TICKERS, DEMO_MODE,
   * DEMO_ONLY, and whether the market-data library could be imported.
   */
  datatype Config = Config(
    tickersEnv: string, maxTickers: int, demo: bool, demoOnly: bool, providerPresent: bool)

  /** Live data is never tried: demo-only mode, or no provider library. */
  predicate SyntheticOnly(cfg: Config) {
    cfg.demoOnly || !cfg.providerPresent
  }

  /** The two tables and the provider request log, as one value. */
  datatype ExporterState = ExporterState(
    cache: map<string, real>, gauges: map<Key, real>, requests: seq<string>)

  // ---------------------------------------------------------------------------
  // Frame predicates
  // ---------------------------------------------------------------------------

  /** Series (m, s) has the same presence and value in `g` and `g'`. */
  predicate SameGauge(g: map<Key, real>, g': map<Key, real>, m: Metric, s: string) {
    ((m, s) in g <==> (m, s) in g') && ((m, s) in g ==> g[(m, s)] == g'[(m, s)])
  }

  /** Cache entry `s` has the same presence and value in `c` and `c'`. */
  predicate SameEntry(c: map<string, real>, c': map<string, real>, s: string) {
    (s in c <==> s in c') && (s in c ==> c[s] == c'[s])
  }

  /** Neither the cache entry nor any gauge of `s` differs between `st` and `r`. */
  ghost predicate Untouched(st: ExporterState, r: ExporterState, s: string) {
    SameEntry(st.cache, r.cache, s) && forall m :: SameGauge(st.gauges, r.gauges, m, s)
  }

  /** Nothing about any symbol other than `sym` differs between `st` and `r`. */
  ghost predicate OthersUnchanged(st: ExporterState, r: ExporterState, sym: string) {
    forall s :: s != sym ==> Untouched(st, r, s)
  }

  /** Neither the cache entry nor any gauge of `sym` except the ok flag differs. */
  ghost predicate Frozen(st: ExporterState, r: ExporterState, sym: string) {
    && SameEntry(st.cache, r.cache, sym)
    && forall m :: m != Ok ==> SameGauge(st.gauges, r.gauges, m, sym)
  }

  /** Entries are added and updated, never removed. */
  predicate Grows(st: ExporterState, r: ExporterState) {
    st.cache.Keys <= r.cache.Keys && st.gauges.Keys <= r.gauges.Keys
  }

  /** Every gauge has a series for `s`. */
  ghost predicate AllSeries(g: map<Key, real>, s: string) {
    forall m :: (m, s) in g
  }

  /**
   * The shape symbol `s` has in every reachable state: its price gauge exists
   * exactly when it is cached and shows the cached price, and it has either no
   * series, only the ok flag, or all fourteen.
   */
  ghost predicate CoherentAt(st: ExporterState, s: string) {
    && (s in st.cache <==> (Price, s) in st.gauges)
    && (s in st.cache ==> st.gauges[(Price, s)] == st.cache[s])
    && (forall m :: (m, s) in st.gauges ==> (Ok, s) in st.gauges)
    && (forall m :: (m, s) in st.gauges && m != Ok ==> AllSeries(st.gauges, s))
  }

  ghost predicate Coherent(st: ExporterState) {
    forall s :: CoherentAt(st, s)
  }

  // ---------------------------------------------------------------------------
  // set_metrics and synth, as functions
  // ---------------------------------------------------------------------------

  /** The value gauge `m` shows after set_metrics(sym, d, ok). */
  function Reading(d: Sample, ok: bool, m: Metric): real {
    match m
    case Price => d.price
    case Ok => if ok then 1.0 else 0.0
    case Rsi14 => d.rsi14
    case Macd => d.macd
    case MacdSignal => d.macdSignal
    case MacdHist => d.macdHist
    case Bbp20d => d.bbp
    case Return1d => d.ret1
    case Return5d => d.ret5
    case Return20d => d.ret20
    case Vol20d => d.rv20
    case Volume => d.vNow
    case VolumeAvg20d => d.vAvg
    case VolumeRatio => d.vRatio
  }

  /** The gauge table after set_metrics(sym, d, ok), written in the source's order. */
  function Publish(g: map<Key, real>, sym: string, d: Sample, ok: bool): (r: map<Key, real>)
    ensures forall m, s :: s != sym ==> SameGauge(g, r, m, s)
    ensures g.Keys <= r.Keys
  {
    g[(Price, sym) := d.price][(Ok, sym) := if ok then 1.0 else 0.0]
     [(Rsi14, sym) := d.rsi14][(Macd, sym) := d.macd]
     [(MacdSignal, sym) := d.macdSignal][(MacdHist, sym) := d.macdHist]
     [(Bbp20d, sym) := d.bbp]
     [(Return1d, sym) := d.ret1][(Return5d, sym) := d.ret5]
     [(Return20d, sym) := d.ret20][(Vol20d, sym) := d.rv20]
     [(Volume, sym) := d.vNow][(VolumeAvg20d, sym) := d.vAvg]
     [(VolumeRatio, sym) := d.vRatio]
  }

  /** After set_metrics(sym, d, ok) every gauge has a series for `sym` showing the record. */
  lemma PublishShowsRecord(g: map<Key, real>, sym: string, d: Sample, ok: bool)
    ensures var r := Publish(g, sym, d, ok);
      forall m :: (m, sym) in r && r[(m, sym)] == Reading(d, ok, m)
  {
    var r := Publish(g, sym, d, ok);
    forall m ensures (m, sym) in r && r[(m, sym)] == Reading(d, ok, m) {
      match m
      case Price =>
      case Ok =>
      case Rsi14 =>
      case Macd =>
      case MacdSignal =>
      case MacdHist =>
      case Bbp20d =>
      case Return1d =>
      case Return5d =>
      case Return20d =>
      case Vol20d =>
      case Volume =>
      case VolumeAvg20d =>
      case VolumeRatio =>
    }
  }

  /** The price a synthetic sample walks from: the cached price, else the random seed in [100, 120). */
  function WalkBase(cache: map<string, real>, sym: string, draws: Draws): real {
    if sym in cache then cache[sym] else 100.0 + draws.unit * 20.0
  }

  /** The record synth returns. */
  function Synthesize(cache: map<string, real>, sym: string, draws: Draws): Sample {
    Sample(
      WalkBase(cache, sym, draws) * (1.0 + draws.step),
      50.0 + draws.rsiNoise, draws.macd, draws.macdSignal, draws.macdHist, draws.bbp,
      draws.ret1, draws.ret5, draws.ret20,
      if draws.rvNoise < 0.0 then -draws.rvNoise else draws.rvNoise,
      draws.vNow as real, draws.vAvg as real, draws.vRatio)
  }

  /** set_metrics(sym, synth(sym), False): cache the walked price, publish with ok = 0. */
  function SynthPublish(st: ExporterState, sym: string, draws: Draws): ExporterState {
    var d := Synthesize(st.cache, sym, draws);
    st.(cache := st.cache[sym := d.price], gauges := Publish(st.gauges, sym, d, false))
  }

  /** The failure path without demo mode: re-publish the cached price if any, set ok = 0. */
  function HoldPrice(st: ExporterState, sym: string): ExporterState {
    var g := if sym in st.cache then st.gauges[(Price, sym) := st.cache[sym]] else st.gauges;
    st.(gauges := g[(Ok, sym) := 0.0])
  }

  // ---------------------------------------------------------------------------
  // One symbol, one cycle, many cycles
  // ---------------------------------------------------------------------------

  /** The body of `for sym in tickers` in fetch_loop; `reply` is what the live path yields. */
  function Step(cfg: Config, st: ExporterState, sym: string, reply: Outcome, draws: Draws): (r: ExporterState)
    ensures OthersUnchanged(st, r, sym) && Grows(st, r)
    ensures r.requests == if SyntheticOnly(cfg) then st.requests else st.requests + [sym]
    ensures (Ok, sym) in r.gauges
    ensures r.gauges[(Ok, sym)] == (if !SyntheticOnly(cfg) && reply.Fetched? then 1.0 else 0.0)
  {
    if SyntheticOnly(cfg) then SynthPublish(st, sym, draws)
    else
      var asked := st.(requests := st.requests + [sym]);
      match reply
      case Fetched(d) =>
        asked.(cache := st.cache[sym := d.price], gauges := Publish(st.gauges, sym, d, true))
      case Failed =>
        if cfg.demo || cfg.demoOnly then SynthPublish(asked, sym, draws) else HoldPrice(asked, sym)
  }

  /**
   * One pass of the for loop over `tickers`. The list load_tickers returns has
   * no repeats; a repeated symbol here would see the same reply and draws twice.
   */
  function CycleOf(
    cfg: Config, st: ExporterState, tickers: seq<string>,
    fetch: string -> Outcome, draws: string -> Draws): ExporterState
  {
    if tickers == [] then st
    else
      var sym := tickers[|tickers| - 1];
      Step(cfg, CycleOf(cfg, st, tickers[..|tickers| - 1], fetch, draws), sym, fetch(sym), draws(sym))
  }

  /** What one iteration of `while True` sees: the ticker file, the provider's replies, the random draws. */
  datatype Round = Round(file: Tickers.Option<string>, fetch: string -> Outcome, draws: string -> Draws)

  function RoundTickers(cfg: Config, round: Round): seq<string> {
    Tickers.TickerList(round.file, cfg.tickersEnv, cfg.maxTickers)
  }

  /** Successive iterations of `while True`: reload the list, then one cycle. */
  function Run(cfg: Config, st: ExporterState, rounds: seq<Round>): ExporterState {
    if rounds == [] then st
    else
      var last := rounds[|rounds| - 1];
      CycleOf(cfg, Run(cfg, st, rounds[..|rounds| - 1]), RoundTickers(cfg, last), last.fetch, last.draws)
  }

  // ---------------------------------------------------------------------------
  // Properties of one step
  // ---------------------------------------------------------------------------

  /** Demo-only mode or no provider: no request, a synthetic sample published with ok = 0. */
  lemma StepSyntheticOnly(cfg: Config, st: ExporterState, sym: string, reply: Outcome, draws: Draws)
    requires SyntheticOnly(cfg)
    ensures var r := Step(cfg, st, sym, reply, draws);
      var d := Synthesize(st.cache, sym, draws);
      && r.requests == st.requests
      && sym in r.cache && r.cache[sym] == WalkBase(st.cache, sym, draws) * (1.0 + draws.step)
      && (forall m :: (m, sym) in r.gauges && r.gauges[(m, sym)] == Reading(d, false, m))
  {
    PublishShowsRecord(st.gauges, sym, Synthesize(st.cache, sym, draws), false);
  }

  /** Live success: the cache holds the published price, ok = 1, every gauge shows the record. */
  lemma StepLiveSuccess(cfg: Config, st: ExporterState, sym: string, d: Sample, draws: Draws)
    requires !SyntheticOnly(cfg)
    ensures var r := Step(cfg, st, sym, Fetched(d), draws);
      && r.requests == st.requests + [sym]
      && sym in r.cache && r.cache[sym] == r.gauges[(Price, sym)] == d.price
      && r.gauges[(Ok, sym)] == 1.0
      && (forall m :: (m, sym) in r.gauges && r.gauges[(m, sym)] == Reading(d, true, m))
  {
    PublishShowsRecord(st.gauges, sym, d, true);
  }

  /** Failure in demo mode: a synthetic sample replaces the live one, with ok = 0. */
  lemma StepFailureDemo(cfg: Config, st: ExporterState, sym: string, draws: Draws)
    requires !SyntheticOnly(cfg) && cfg.demo
    ensures var r := Step(cfg, st, sym, Failed, draws);
      var d := Synthesize(st.cache, sym, draws);
      && r.requests == st.requests + [sym]
      && sym in r.cache && r.cache[sym] == d.price
      && (forall m :: (m, sym) in r.gauges && r.gauges[(m, sym)] == Reading(d, false, m))
  {
    PublishShowsRecord(st.gauges, sym, Synthesize(st.cache, sym, draws), false);
  }

  /**
   * Failure without demo mode: the cache and every indicator gauge stay, the
   * price gauge is set to the cached price when there is one, ok becomes 0.
   */
  lemma StepFailureHoldsPrice(cfg: Config, st: ExporterState, sym: string, draws: Draws)
    requires !SyntheticOnly(cfg) && !cfg.demo
    ensures var r := Step(cfg, st, sym, Failed, draws);
      && r.requests == st.requests + [sym]
      && r.cache == st.cache
      && (sym in st.cache ==> (Price, sym) in r.gauges && r.gauges[(Price, sym)] == st.cache[sym])
      && (sym !in st.cache ==> SameGauge(st.gauges, r.gauges, Price, sym))
      && (forall m :: m != Price && m != Ok ==> SameGauge(st.gauges, r.gauges, m, sym))
      && r.gauges[(Ok, sym)] == 0.0
  {
  }

  /** A symbol whose cache entry and gauges did not change keeps its shape. */
  lemma CoherentAtUntouched(st: ExporterState, r: ExporterState, s: string)
    requires CoherentAt(st, s) && Untouched(st, r, s)
    ensures CoherentAt(r, s)
  {
    forall m
      ensures ((m, s) in r.gauges <==> (m, s) in st.gauges)
      ensures (m, s) in st.gauges ==> r.gauges[(m, s)] == st.gauges[(m, s)]
    {
      assert SameGauge(st.gauges, r.gauges, m, s);
    }
  }

  /** Every step keeps the state coherent. */
  lemma StepKeepsCoherent(cfg: Config, st: ExporterState, sym: string, reply: Outcome, draws: Draws)
    requires Coherent(st)
    ensures Coherent(Step(cfg, st, sym, reply, draws))
  {
    var r := Step(cfg, st, sym, reply, draws);
    forall s ensures CoherentAt(r, s) {
      assert CoherentAt(st, s);
      if s != sym {
        CoherentAtUntouched(st, r, s);
      } else if SyntheticOnly(cfg) || reply.Fetched? || cfg.demo {
        PublishShowsRecord(st.gauges, sym, Synthesize(st.cache, sym, draws), false);
        PublishShowsRecord(st.gauges, sym, if reply.Fetched? then reply.sample else Synthesize(st.cache, sym, draws), true);
        assert AllSeries(r.gauges, sym);
      } else {
        StepFailureHoldsPrice(cfg, st, sym, draws);
        forall m | (m, sym) in r.gauges && m != Ok ensures AllSeries(r.gauges, sym) {
          assert (m, sym) in st.gauges;
          assert AllSeries(st.gauges, sym);
          assert forall m' :: (m', sym) in st.gauges ==> (m', sym) in r.gauges;
        }
      }
    }
  }

  /** A failure without demo mode leaves everything of a coherent symbol but the ok flag alone. */
  lemma StepFailureFrozen(cfg: Config, st: ExporterState, sym: string, draws: Draws)
    requires Coherent(st) && !SyntheticOnly(cfg) && !cfg.demo
    ensures Frozen(st, Step(cfg, st, sym, Failed, draws), sym)
  {
    assert CoherentAt(st, sym);
    StepFailureHoldsPrice(cfg, st, sym, draws);
  }

  // ---------------------------------------------------------------------------
  // Properties of one cycle
  // ---------------------------------------------------------------------------

  /** A cycle keeps the state coherent. */
  lemma {:induction false} CycleKeepsCoherent(
    cfg: Config, st: ExporterState, tickers: seq<string>, fetch: string -> Outcome, draws: string -> Draws)
    requires Coherent(st)
    ensures Coherent(CycleOf(cfg, st, tickers, fetch, draws))
  {
    if tickers != [] {
      var sym := tickers[|tickers| - 1];
      CycleKeepsCoherent(cfg, st, tickers[..|tickers| - 1], fetch, draws);
      StepKeepsCoherent(cfg, CycleOf(cfg, st, tickers[..|tickers| - 1], fetch, draws), sym, fetch(sym), draws(sym));
    }
  }

  /**
   * The provider is asked once per listed symbol, in list order, in live mode,
   * and never in demo-only mode or without a provider.
   */
  lemma {:induction false} CycleRequests(
    cfg: Config, st: ExporterState, tickers: seq<string>, fetch: string -> Outcome, draws: string -> Draws)
    ensures CycleOf(cfg, st, tickers, fetch, draws).requests ==
      if SyntheticOnly(cfg) then st.requests else st.requests + tickers
  {
    if tickers != [] {
      var init, sym := tickers[..|tickers| - 1], tickers[|tickers| - 1];
      CycleRequests(cfg, st, init, fetch, draws);
      var mid := CycleOf(cfg, st, init, fetch, draws);
      var r := Step(cfg, mid, sym, fetch(sym), draws(sym));
      AppendLast(st.requests, tickers);
    }
  }

  lemma AppendLast(a: seq<string>, s: seq<string>)
    requires s != []
    ensures a + s[..|s| - 1] + [s[|s| - 1]] == a + s
  {
    assert s[..|s| - 1] + [s[|s| - 1]] == s;
  }

  lemma UntouchedTransitive(a: ExporterState, b: ExporterState, c: ExporterState, s: string)
    requires Untouched(a, b, s) && Untouched(b, c, s)
    ensures Untouched(a, c, s)
  {
    forall m ensures SameGauge(a.gauges, c.gauges, m, s) {
      assert SameGauge(a.gauges, b.gauges, m, s) && SameGauge(b.gauges, c.gauges, m, s);
    }
  }

  /** Symbols that are not listed keep their last published values and cached price. */
  lemma {:induction false} CycleLeavesUnlisted(
    cfg: Config, st: ExporterState, tickers: seq<string>, fetch: string -> Outcome, draws: string -> Draws,
    s: string)
    requires s !in tickers
    ensures Untouched(st, CycleOf(cfg, st, tickers, fetch, draws), s)
  {
    if tickers != [] {
      var init := tickers[..|tickers| - 1];
      var sym := tickers[|tickers| - 1];
      assert s != sym && s !in init;
      CycleLeavesUnlisted(cfg, st, init, fetch, draws, s);
      var mid := CycleOf(cfg, st, init, fetch, draws);
      UntouchedTransitive(st, mid, Step(cfg, mid, sym, fetch(sym), draws(sym)), s);
    }
  }

  /**
   * After a cycle every listed symbol has an ok flag, which is 1 exactly when
   * live data is enabled and the live path succeeded for it.
   */
  lemma {:induction false} CycleOkFlag(
    cfg: Config, st: ExporterState, tickers: seq<string>, fetch: string -> Outcome, draws: string -> Draws,
    sym: string)
    requires sym in tickers
    ensures var r := CycleOf(cfg, st, tickers, fetch, draws);
      && (Ok, sym) in r.gauges
      && r.gauges[(Ok, sym)] == if !SyntheticOnly(cfg) && fetch(sym).Fetched? then 1.0 else 0.0
  {
    var init := tickers[..|tickers| - 1];
    var last := tickers[|tickers| - 1];
    var mid := CycleOf(cfg, st, init, fetch, draws);
    var r := Step(cfg, mid, last, fetch(last), draws(last));
    if last != sym {
      assert sym in init;
      CycleOkFlag(cfg, st, init, fetch, draws, sym);
      assert Untouched(mid, r, sym);
      assert SameGauge(mid.gauges, r.gauges, Ok, sym);
    }
  }

  /**
   * After a cycle in which the live path succeeded for a listed symbol, the
   * cache and every gauge of that symbol hold the fetched record.
   */
  lemma {:induction false} CycleLiveRecord(
    cfg: Config, st: ExporterState, tickers: seq<string>, fetch: string -> Outcome, draws: string -> Draws,
    sym: string)
    requires sym in tickers && !SyntheticOnly(cfg) && fetch(sym).Fetched?
    ensures var r := CycleOf(cfg, st, tickers, fetch, draws);
      && sym in r.cache && r.cache[sym] == fetch(sym).sample.price
      && forall m :: (m, sym) in r.gauges && r.gauges[(m, sym)] == Reading(fetch(sym).sample, true, m)
  {
    var init := tickers[..|tickers| - 1];
    var last := tickers[|tickers| - 1];
    var mid := CycleOf(cfg, st, init, fetch, draws);
    var r := Step(cfg, mid, last, fetch(last), draws(last));
    if last == sym {
      StepLiveSuccess(cfg, mid, sym, fetch(sym).sample, draws(sym));
    } else {
      assert sym in init;
      CycleLiveRecord(cfg, st, init, fetch, draws, sym);
      assert Untouched(mid, r, sym);
      forall m ensures (m, sym) in r.gauges && r.gauges[(m, sym)] == Reading(fetch(sym).sample, true, m) {
        assert SameGauge(mid.gauges, r.gauges, m, sym);
      }
    }
  }

  lemma FrozenTransitive(a: ExporterState, b: ExporterState, c: ExporterState, sym: string)
    requires Frozen(a, b, sym) && Frozen(b, c, sym)
    ensures Frozen(a, c, sym)
  {
    forall m | m != Ok ensures SameGauge(a.gauges, c.gauges, m, sym) {
      assert SameGauge(a.gauges, b.gauges, m, sym) && SameGauge(b.gauges, c.gauges, m, sym);
    }
  }

  /** In live mode without demo mode, a cycle in which `sym` fails leaves `sym` frozen. */
  lemma {:induction false} CycleFailureFrozen(
    cfg: Config, st: ExporterState, tickers: seq<string>, fetch: string -> Outcome, draws: string -> Draws,
    sym: string)
    requires Coherent(st) && !SyntheticOnly(cfg) && !cfg.demo && fetch(sym).Failed?
    ensures Frozen(st, CycleOf(cfg, st, tickers, fetch, draws), sym)
  {
    if tickers != [] {
      var init := tickers[..|tickers| - 1];
      var last := tickers[|tickers| - 1];
      CycleFailureFrozen(cfg, st, init, fetch, draws, sym);
      CycleKeepsCoherent(cfg, st, init, fetch, draws);
      var mid := CycleOf(cfg, st, init, fetch, draws);
      var r := Step(cfg, mid, last, fetch(last), draws(last));
      if last == sym {
        StepFailureFrozen(cfg, mid, sym, draws(sym));
      } else {
        assert Untouched(mid, r, sym);
      }
      FrozenTransitive(st, mid, r, sym);
    }
  }

  // ---------------------------------------------------------------------------
  // Properties of many cycles
  // ---------------------------------------------------------------------------

  /** Any number of cycles keeps the state coherent. */
  lemma {:induction false} RunKeepsCoherent(cfg: Config, st: ExporterState, rounds: seq<Round>)
    requires Coherent(st)
    ensures Coherent(Run(cfg, st, rounds))
  {
    if rounds != [] {
      var last := rounds[|rounds| - 1];
      RunKeepsCoherent(cfg, st, rounds[..|rounds| - 1]);
      CycleKeepsCoherent(cfg, Run(cfg, st, rounds[..|rounds| - 1]), RoundTickers(cfg, last), last.fetch, last.draws);
    }
  }

  /** In demo-only mode, or without a provider, no cycle ever asks the provider for anything. */
  lemma {:induction false} RunNeverAsksWhenSynthetic(cfg: Config, st: ExporterState, rounds: seq<Round>)
    requires SyntheticOnly(cfg)
    ensures Run(cfg, st, rounds).requests == st.requests
  {
    if rounds != [] {
      var last := rounds[|rounds| - 1];
      RunNeverAsksWhenSynthetic(cfg, st, rounds[..|rounds| - 1]);
      CycleRequests(cfg, Run(cfg, st, rounds[..|rounds| - 1]), RoundTickers(cfg, last), last.fetch, last.draws);
    }
  }

  /**
   * A provider that keeps failing for `sym`, in live mode without demo mode:
   * however many cycles pass, the cached price, the price gauge and every
   * indicator gauge of `sym` keep their values (or stay absent), and the ok
   * flag is 0 after every cycle that lists `sym`.
   */
  lemma {:induction false} PersistentFailurePinsPrice(
    cfg: Config, st: ExporterState, rounds: seq<Round>, sym: string)
    requires Coherent(st) && !SyntheticOnly(cfg) && !cfg.demo
    requires forall k :: 0 <= k < |rounds| ==> rounds[k].fetch(sym).Failed?
    ensures Frozen(st, Run(cfg, st, rounds), sym)
    ensures rounds != [] && sym in RoundTickers(cfg, rounds[|rounds| - 1]) ==>
      (Ok, sym) in Run(cfg, st, rounds).gauges && Run(cfg, st, rounds).gauges[(Ok, sym)] == 0.0
  {
    if rounds != [] {
      var init := rounds[..|rounds| - 1];
      var last := rounds[|rounds| - 1];
      PersistentFailurePinsPrice(cfg, st, init, sym);
      RunKeepsCoherent(cfg, st, init);
      var mid := Run(cfg, st, init);
      CycleFailureFrozen(cfg, mid, RoundTickers(cfg, last), last.fetch, last.draws, sym);
      FrozenTransitive(st, mid, Run(cfg, st, rounds), sym);
      if sym in RoundTickers(cfg, last) {
        CycleOkFlag(cfg, mid, RoundTickers(cfg, last), last.fetch, last.draws, sym);
      }
    }
  }

  /**
   * The first synthetic price of a symbol walks from a seed in [100, 120);
   * later ones walk from the cached price.
   */
  lemma SyntheticWalk(cache: map<string, real>, sym: string, draws: Draws)
    requires DrawsInRange(draws)
    ensures sym in cache ==> Synthesize(cache, sym, draws).price == cache[sym] * (1.0 + draws.step)
    ensures sym !in cache ==>
      var seed := WalkBase(cache, sym, draws);
      100.0 <= seed < 120.0 && Synthesize(cache, sym, draws).price == seed * (1.0 + draws.step)
  {
    var b := WalkBase(cache, sym, draws);
    assert Synthesize(cache, sym, draws).price == b * (1.0 + draws.step);
    assert sym !in cache ==> b == 100.0 + draws.unit * 20.0;
  }

  // ---------------------------------------------------------------------------
  // The exporter's mutable state
  // ---------------------------------------------------------------------------

  class Exporter {
    const config: Config
    /** last_price_cache */
    var cache: map<string, real>
    /** The fourteen gauges, by (metric, symbol). */
    var gauges: map<Key, real>
    /** The symbols the market-data provider has been asked for, oldest first (a log for the proofs). */
    ghost var requests: seq<string>

    ghost function Current(): ExporterState
      reads this
    {
      ExporterState(cache, gauges, requests)
    }

    constructor (config: Config)
      ensures this.config == config
      ensures Current() == ExporterState(map[], map[], [])
      ensures Coherent(Current())
    {
      this.config := config;
      cache := map[];
      gauges := map[];
      requests := [];
    }

    /** synth(sym): one step of the random walk, stored in the cache. */
    method Synth(sym: string, draws: Draws) returns (d: Sample)
      modifies this
      ensures d == Synthesize(old(cache), sym, draws)
      ensures d.price == (if sym in old(cache) then old(cache)[sym] else 100.0 + draws.unit * 20.0)
                         * (1.0 + draws.step)
      ensures cache == old(cache)[sym := d.price]
      ensures gauges == old(gauges) && requests == old(requests)
    {
      var base := if sym in cache then cache[sym] else 100.0 + draws.unit * 20.0;
      var step := draws.step;
      base := base * (1.0 + step);
      cache := cache[sym := base];
      d := Sample(
        base, 50.0 + draws.rsiNoise, draws.macd, draws.macdSignal, draws.macdHist,
        draws.bbp, draws.ret1, draws.ret5, draws.ret20,
        if draws.rvNoise < 0.0 then -draws.rvNoise else draws.rvNoise,
        draws.vNow as real, draws.vAvg as real, draws.vRatio);
    }

    /** set_metrics(sym, d, ok): every gauge of `sym` shows the record, nothing else changes. */
    method SetMetrics(sym: string, d: Sample, ok: bool)
      modifies this
      ensures gauges == Publish(old(gauges), sym, d, ok)
      ensures forall m :: (m, sym) in gauges && gauges[(m, sym)] == Reading(d, ok, m)
      ensures forall m, s :: s != sym ==> SameGauge(old(gauges), gauges, m, s)
      ensures cache == old(cache) && requests == old(requests)
    {
      gauges := gauges[(Price, sym) := d.price];
      gauges := gauges[(Ok, sym) := if ok then 1.0 else 0.0];
      gauges := gauges[(Rsi14, sym) := d.rsi14];
      gauges := gauges[(Macd, sym) := d.macd];
      gauges := gauges[(MacdSignal, sym) := d.macdSignal];
      gauges := gauges[(MacdHist, sym) := d.macdHist];
      gauges := gauges[(Bbp20d, sym) := d.bbp];
      gauges := gauges[(Return1d, sym) := d.ret1];
      gauges := gauges[(Return5d, sym) := d.ret5];
      gauges := gauges[(Return20d, sym) := d.ret20];
      gauges := gauges[(Vol20d, sym) := d.rv20];
      gauges := gauges[(Volume, sym) := d.vNow];
      gauges := gauges[(VolumeAvg20d, sym) := d.vAvg];
      gauges := gauges[(VolumeRatio, sym) := d.vRatio];
      PublishShowsRecord(old(gauges), sym, d, ok);
    }

    /**
     * One symbol of a refresh cycle. `fetch` stands for the provider and the
     * indicator computation; it is consulted only on the live path.
     */
    method SampleSymbol(sym: string, fetch: string -> Outcome, draws: Draws)
      requires Coherent(Current())
      modifies this
      ensures Current() == Step(config, old(Current()), sym, fetch(sym), draws)
      ensures Coherent(Current())
    {
      StepKeepsCoherent(config, Current(), sym, fetch(sym), draws);
      if config.demoOnly || !config.providerPresent {
        var d := Synth(sym, draws);
        SetMetrics(sym, d, false);
      } else {
        requests := requests + [sym];
        var reply := fetch(sym);
        match reply
        case Fetched(d) =>
          cache := cache[sym := d.price];
          SetMetrics(sym, d, true);
        case Failed =>
          if config.demo || config.demoOnly {
            var d := Synth(sym, draws);
            SetMetrics(sym, d, false);
          } else {
            if sym in cache {
              gauges := gauges[(Price, sym) := cache[sym]];
            }
            gauges := gauges[(Ok, sym) := 0.0];
          }
      }
    }

    /** The `for sym in tickers` loop of one refresh cycle. */
    method Cycle(tickers: seq<string>, fetch: string -> Outcome, draws: string -> Draws)
      requires Coherent(Current())
      modifies this
      ensures Current() == CycleOf(config, old(Current()), tickers, fetch, draws)
      ensures Coherent(Current())
    {
      for i := 0 to |tickers|
        invariant Current() == CycleOf(config, old(Current()), tickers[..i], fetch, draws)
        invariant Coherent(Current())
      {
        assert tickers[..i + 1][..i] == tickers[..i];
        SampleSymbol(tickers[i], fetch, draws(tickers[i]));
      }
      assert tickers[..|tickers|] == tickers;
    }

    /** One iteration of `while True`: reload the ticker list, then run a cycle over it. */
    method Refresh(file: Tickers.Option<string>, fetch: string -> Outcome, draws: string -> Draws)
      returns (tickers: seq<string>)
      requires Coherent(Current())
      modifies this
      ensures tickers == Tickers.TickerList(file, config.tickersEnv, config.maxTickers)
      ensures Current() == Run(config, old(Current()), [Round(file, fetch, draws)])
      ensures Coherent(Current())
    {
      tickers := Tickers.LoadTickers(file, config.tickersEnv, config.maxTickers);
      Cycle(tickers, fetch, draws);
      assert [Round(file, fetch, draws)][..0] == [];
    }
  }
}
