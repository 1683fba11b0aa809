/** The stateless kill switch: which verdicts a tick produces, and exactly when. */
module KillSwitch {
  import opened Options
  import opened Reals

  datatype Action =
    Continue | HalveSize | PauseNewEntries | FlattenBot | FlattenTierB | FlattenAll | FlattenTierAPreemptive

  datatype Severity = Info | Warn | Critical

  datatype Scope = Global | TierA | TierB | Bot(name: string)

  datatype Evidence =
    | NoEvidence
    | Drawdown(pct: real, cap: real)
    | DailyLoss(pct: real, cap: real)
    | Cushion(distance: real, cap: real, trailingLimit: real)
    | Correlated(pairs: seq<string>, cap: real, needed: int)
    | Funding(symbol: string, bps: real, cap: real)
    | SessionLoss(pnl: real, cap: real)
    | BotDrawdown(pct: real, cap: real)
    | LossStreak(count: int, most: int)

  /** The wording of a reason depends on the scope and the evidence, and is left open. */
  datatype Verdict = Verdict(action: Action, severity: Severity, scope: Scope, evidence: Evidence)

  datatype Tier = A | B

  datatype BotSnapshot = BotSnapshot(name: string, tier: Tier, equity: real, peak: real, sessionPnl: real, losses: int)

  datatype Portfolio = Portfolio(equity: real, peak: real, dailyPnl: real)

  /** The apex account's distance to its trailing limit, and that limit. */
  datatype Apex = Apex(distance: real, trailingLimit: real)

  datatype Bucket = Bucket(maxLossUsd: Option<real>, maxLossPct: Option<real>, lossStreak: Option<int>)

  /** The configuration file, with what it leaves out. */
  datatype Config = Config(maxDrawdownPct: Option<real>, dailyLossPct: Option<real>, cushionUsd: Option<real>,
                           correlationOn: bool, correlation: Option<real>, pairsRequired: Option<int>,
                           softBps: Option<real>, hardBps: Option<real>,
                           bucketsA: map<string, Bucket>, bucketsB: map<string, Bucket>)

  // ---------------------------------------------------------------- the checks

  function CheckGlobal(c: Config, p: Portfolio): Option<Verdict> {
    if p.equity <= 0.0 || p.peak <= 0.0 then None else
    var dd := (p.peak - p.equity) / p.peak * 100.0;
    var loss := (if p.dailyPnl < 0.0 then -p.dailyPnl else 0.0) / p.peak * 100.0;
    var ddCap, lossCap := Or(c.maxDrawdownPct, 100.0), Or(c.dailyLossPct, 100.0);
    if dd >= ddCap then Some(Verdict(FlattenAll, Critical, Global, Drawdown(dd, ddCap)))
    else if loss >= lossCap then Some(Verdict(FlattenAll, Critical, Global, DailyLoss(loss, lossCap)))
    else None
  }

  function CheckApex(c: Config, a: Apex): Option<Verdict> {
    var cushion := Or(c.cushionUsd, 500.0);
    if a.distance <= cushion then
      Some(Verdict(FlattenTierAPreemptive, Critical, TierA, Cushion(a.distance, cushion, a.trailingLimit)))
    else None
  }

  function HighPairs(pairs: seq<(string, real)>, threshold: real): seq<string> {
    if |pairs| == 0 then []
    else HighPairs(pairs[..|pairs| - 1], threshold)
         + if Abs(pairs[|pairs| - 1].1) >= threshold then [pairs[|pairs| - 1].0] else []
  }

  function CheckCorrelation(c: Config, pairs: seq<(string, real)>): Option<Verdict> {
    if !c.correlationOn then None else
    var threshold := Or(c.correlation, 0.85);
    var high := HighPairs(pairs, threshold);
    var needed := Or(c.pairsRequired, 4);
    if |high| >= needed then Some(Verdict(FlattenTierB, Warn, TierB, Correlated(high, threshold, needed))) else None
  }

  function CheckSymbol(c: Config, symbol: string, bps: real): Option<Verdict> {
    var soft, hard := Or(c.softBps, 20.0), Or(c.hardBps, 50.0);
    if Abs(bps) >= hard then Some(Verdict(FlattenBot, Warn, Bot(symbol), Funding(symbol, bps, hard)))
    else if Abs(bps) >= soft then Some(Verdict(HalveSize, Info, Bot(symbol), Funding(symbol, bps, soft)))
    else None
  }

  function BucketOf(c: Config, b: BotSnapshot): Bucket {
    var buckets := if b.tier.A? then c.bucketsA else c.bucketsB;
    if b.name in buckets then buckets[b.name] else Bucket(None, None, None)
  }

  function CheckBot(c: Config, b: BotSnapshot): Option<Verdict> {
    var bucket := BucketOf(c, b);
    var maxUsd, maxPct, streak := Or(bucket.maxLossUsd, 1.0e12), Or(bucket.maxLossPct, 100.0), Or(bucket.lossStreak, 0);
    if b.tier.A? && b.sessionPnl <= -maxUsd then
      Some(Verdict(FlattenBot, Warn, Bot(b.name), SessionLoss(b.sessionPnl, maxUsd)))
    else if b.tier.B? && b.peak > 0.0 && (b.peak - b.equity) / b.peak * 100.0 >= maxPct then
      Some(Verdict(FlattenBot, Warn, Bot(b.name), BotDrawdown((b.peak - b.equity) / b.peak * 100.0, maxPct)))
    else if streak > 0 && b.losses >= streak then
      Some(Verdict(FlattenBot, Warn, Bot(b.name), LossStreak(b.losses, streak)))
    else None
  }

  // ---------------------------------------------------------------- the tick

  function Listed(v: Option<Verdict>): seq<Verdict> { if v.Some? then [v.value] else [] }

  function FundingVerdicts(c: Config, rates: seq<(string, real)>): seq<Verdict> {
    if |rates| == 0 then []
    else FundingVerdicts(c, rates[..|rates| - 1]) + Listed(CheckSymbol(c, rates[|rates| - 1].0, rates[|rates| - 1].1))
  }

  function BotVerdicts(c: Config, bots: seq<BotSnapshot>): seq<Verdict> {
    if |bots| == 0 then [] else BotVerdicts(c, bots[..|bots| - 1]) + Listed(CheckBot(c, bots[|bots| - 1]))
  }

  datatype Tick = Tick(bots: seq<BotSnapshot>, portfolio: Portfolio, pairs: Option<seq<(string, real)>>,
                       rates: Option<seq<(string, real)>>, apex: Option<Apex>)

  function ApexOf(c: Config, t: Tick): Option<Verdict> {
    if t.apex.Some? then CheckApex(c, t.apex.value) else None
  }

  function CorrelationOf(c: Config, t: Tick): Option<Verdict> {
    if t.pairs.Some? then CheckCorrelation(c, t.pairs.value) else None
  }

  function Lesser(c: Config, t: Tick): seq<Verdict> {
    (if t.rates.Some? then FundingVerdicts(c, t.rates.value) else []) + BotVerdicts(c, t.bots)
  }

  const QUIET := Verdict(Continue, Info, Global, NoEvidence)

  function Evaluated(c: Config, t: Tick): seq<Verdict> {
    if CheckGlobal(c, t.portfolio).Some? then [CheckGlobal(c, t.portfolio).value]
    else
      var found := Listed(ApexOf(c, t)) + Listed(CorrelationOf(c, t)) + Lesser(c, t);
      if |found| == 0 then [QUIET] else found
  }

  method Evaluate(c: Config, t: Tick) returns (verdicts: seq<Verdict>)
    ensures verdicts == Evaluated(c, t)
  {
    hide CheckGlobal, CheckApex, CheckCorrelation, FundingVerdicts, BotVerdicts, Charged, Grades, Evaluated;
    EvaluatedParts(c, t);
    verdicts := [];
    var g := CheckGlobal(c, t.portfolio);
    if g.Some? {
      verdicts := verdicts + [g.value];
      return;
    }
    if t.apex.Some? {
      var apex := CheckApex(c, t.apex.value);
      if apex.Some? {
        verdicts := verdicts + [apex.value];
      }
    }
    assert verdicts == Listed(ApexOf(c, t));
    if t.pairs.Some? {
      var correlated := CheckCorrelation(c, t.pairs.value);
      if correlated.Some? {
        verdicts := verdicts + [correlated.value];
      }
    }
    assert verdicts == Listed(ApexOf(c, t)) + Listed(CorrelationOf(c, t));
    hide ApexOf, CorrelationOf, Listed;
    if t.rates.Some? {
      var charged := CheckFunding(c, t.rates.value);
      verdicts := verdicts + charged;
    }
    var perBot := CheckBots(c, t.bots);
    verdicts := verdicts + perBot;
    if |verdicts| == 0 {
      verdicts := verdicts + [QUIET];
    }
  }

  /** What the appending adds up to, part by part. */
  lemma {:induction false} EvaluatedParts(c: Config, t: Tick)
    ensures CheckGlobal(c, t.portfolio).Some? ==> Evaluated(c, t) == [CheckGlobal(c, t.portfolio).value]
    ensures CheckGlobal(c, t.portfolio).None? ==>
              var tierWide := Listed(ApexOf(c, t)) + Listed(CorrelationOf(c, t));
              var charged := if t.rates.Some? then tierWide + FundingVerdicts(c, t.rates.value) else tierWide;
              var found := charged + BotVerdicts(c, t.bots);
              Evaluated(c, t) == if |found| == 0 then [QUIET] else found
  {
    hide CheckGlobal, FundingVerdicts, BotVerdicts, ApexOf, CorrelationOf, Listed;
    var apex, correlated, perBot := Listed(ApexOf(c, t)), Listed(CorrelationOf(c, t)), BotVerdicts(c, t.bots);
    if t.rates.Some? {
      var funding := FundingVerdicts(c, t.rates.value);
      assert apex + correlated + (funding + perBot) == apex + correlated + funding + perBot;
    } else {
      assert [] + perBot == perBot;
    }
  }

  method CheckBots(c: Config, bots: seq<BotSnapshot>) returns (out: seq<Verdict>)
    ensures out == BotVerdicts(c, bots)
  {
    hide CheckBot;
    out := [];
    for i := 0 to |bots|
      invariant out == BotVerdicts(c, bots[..i])
    {
      assert bots[..i + 1][..i] == bots[..i];
      var v := CheckBot(c, bots[i]);
      if v.Some? {
        out := out + [v.value];
      }
    }
    assert bots[..|bots|] == bots;
  }

  method CheckFunding(c: Config, rates: seq<(string, real)>) returns (out: seq<Verdict>)
    ensures out == FundingVerdicts(c, rates) && |out| == |Charged(c, rates)|
    ensures forall i :: 0 <= i < |out| ==> Grades(c, Charged(c, rates)[i], out[i])
  {
    hide CheckSymbol, Grades, Charged;
    out := [];
    for i := 0 to |rates|
      invariant out == FundingVerdicts(c, rates[..i])
    {
      assert rates[..i + 1][..i] == rates[..i];
      var v := CheckSymbol(c, rates[i].0, rates[i].1);
      if v.Some? {
        out := out + [v.value];
      }
    }
    assert rates[..|rates|] == rates;
    FundingGradesCharged(c, rates);
  }

  // ---------------------------------------------------------------- when the checks fire

  lemma {:induction false} PercentAtLeast(x: real, whole: real, cap: real, pct: real)
    requires whole > 0.0 && pct == x / whole * 100.0
    ensures pct >= cap <==> 100.0 * x >= cap * whole
  {
    var share := x / whole;
    assert share * whole == x;
    assert pct * whole == 100.0 * x;
    if pct >= cap { ScaleUp(cap, pct, whole); }
    if pct < cap { ScaleUpStrict(pct, cap, whole); }
  }

  ghost predicate GlobalBreach(c: Config, p: Portfolio) {
    && p.equity > 0.0 && p.peak > 0.0
    && (|| 100.0 * (p.peak - p.equity) >= Or(c.maxDrawdownPct, 100.0) * p.peak
        || 100.0 * (if p.dailyPnl < 0.0 then -p.dailyPnl else 0.0) >= Or(c.dailyLossPct, 100.0) * p.peak)
  }

  /** The global check fires exactly when a positive account is down from its peak, or on
      the day, by the configured share of the peak. */
  lemma {:induction false} GlobalFiresIff(c: Config, p: Portfolio)
    ensures CheckGlobal(c, p).Some? <==> GlobalBreach(c, p)
  {
    if p.equity > 0.0 && p.peak > 0.0 {
      var loss := if p.dailyPnl < 0.0 then -p.dailyPnl else 0.0;
      PercentAtLeast(p.peak - p.equity, p.peak, Or(c.maxDrawdownPct, 100.0), (p.peak - p.equity) / p.peak * 100.0);
      PercentAtLeast(loss, p.peak, Or(c.dailyLossPct, 100.0), loss / p.peak * 100.0);
    }
  }

  /** A wiped-out account never trips the global check, however large its loss, and a
      drawdown cap of 100 or more, the default, cannot be reached while it is positive. */
  lemma {:induction false} DrawdownCapReachable(c: Config, p: Portfolio)
    ensures p.equity <= 0.0 ==> CheckGlobal(c, p).None?
    ensures Or(c.maxDrawdownPct, 100.0) >= 100.0 && CheckGlobal(c, p).Some?
            ==> CheckGlobal(c, p).value.evidence.DailyLoss?
  {
    if p.equity > 0.0 && p.peak > 0.0 {
      var cap := Or(c.maxDrawdownPct, 100.0);
      PercentAtLeast(p.peak - p.equity, p.peak, cap, (p.peak - p.equity) / p.peak * 100.0);
      if cap >= 100.0 { ScaleUp(100.0, cap, p.peak); }
    }
  }

  ghost predicate BotBreach(c: Config, b: BotSnapshot) {
    var buckets := if b.tier.A? then c.bucketsA else c.bucketsB;
    var bucket := if b.name in buckets then buckets[b.name] else Bucket(None, None, None);
    || (b.tier.A? && b.sessionPnl + Or(bucket.maxLossUsd, 1.0e12) <= 0.0)
    || (b.tier.B? && b.peak > 0.0 && 100.0 * (b.peak - b.equity) >= Or(bucket.maxLossPct, 100.0) * b.peak)
    || 0 < Or(bucket.lossStreak, 0) <= b.losses
  }

  lemma {:induction false} BotFiresIff(c: Config, b: BotSnapshot)
    ensures CheckBot(c, b).Some? <==> BotBreach(c, b)
    ensures CheckBot(c, b).Some? ==>
              CheckBot(c, b).value.action == FlattenBot && CheckBot(c, b).value.scope == Bot(b.name)
  {
    if b.tier.B? && b.peak > 0.0 {
      PercentAtLeast(b.peak - b.equity, b.peak, Or(BucketOf(c, b).maxLossPct, 100.0),
                     (b.peak - b.equity) / b.peak * 100.0);
    }
  }

  // ---------------------------------------------------------------- what a tick reports

  predicate Latching(a: Action) {
    a == FlattenAll || a == FlattenTierAPreemptive || a == FlattenTierB
  }

  ghost predicate NoneLatches(verdicts: seq<Verdict>) {
    forall i :: 0 <= i < |verdicts| ==> !Latching(verdicts[i].action) && verdicts[i].action != Continue
  }

  lemma {:induction false} FundingNeverLatches(c: Config, rates: seq<(string, real)>)
    ensures NoneLatches(FundingVerdicts(c, rates))
  {
    if |rates| > 0 {
      FundingNeverLatches(c, rates[..|rates| - 1]);
    }
  }

  lemma {:induction false} BotsNeverLatch(c: Config, bots: seq<BotSnapshot>)
    ensures NoneLatches(BotVerdicts(c, bots))
  {
    if |bots| > 0 {
      BotsNeverLatch(c, bots[..|bots| - 1]);
      BotFiresIff(c, bots[|bots| - 1]);
      hide CheckBot;
    }
  }

  /** The rates that a funding verdict is due for: at least the lower threshold in size. */
  function Charged(c: Config, rates: seq<(string, real)>): seq<(string, real)> {
    if |rates| == 0 then []
    else
      var before, r := Charged(c, rates[..|rates| - 1]), rates[|rates| - 1];
      if Abs(r.1) >= Or(c.hardBps, 50.0) || Abs(r.1) >= Or(c.softBps, 20.0) then before + [r] else before
  }

  /** v is the verdict on a charged rate: flattening from the hard threshold on, halving below
      it, with the symbol, its rate and the threshold that was reached. */
  ghost predicate Grades(c: Config, r: (string, real), v: Verdict) {
    var hard := Abs(r.1) >= Or(c.hardBps, 50.0);
    && v.action == (if hard then FlattenBot else HalveSize) && v.severity == (if hard then Warn else Info)
    && v.scope == Bot(r.0) && v.evidence == Funding(r.0, r.1, if hard then Or(c.hardBps, 50.0) else Or(c.softBps, 20.0))
  }

  /** The funding verdicts are, in order, exactly those on the charged rates. */
  lemma {:induction false} FundingGradesCharged(c: Config, rates: seq<(string, real)>)
    ensures |FundingVerdicts(c, rates)| == |Charged(c, rates)|
    ensures forall i :: 0 <= i < |Charged(c, rates)| ==> Grades(c, Charged(c, rates)[i], FundingVerdicts(c, rates)[i])
  {
    if |rates| > 0 {
      FundingGradesCharged(c, rates[..|rates| - 1]);
    }
  }

  /** The charged rates are those, and only those, at or over the lower of the thresholds. */
  lemma {:induction false} ChargedIff(c: Config, rates: seq<(string, real)>, r: (string, real))
    ensures r in Charged(c, rates) <==>
            && r in rates
            && Abs(r.1) >= if Or(c.softBps, 20.0) <= Or(c.hardBps, 50.0) then Or(c.softBps, 20.0)
                           else Or(c.hardBps, 50.0)
  {
    if |rates| > 0 {
      ChargedIff(c, rates[..|rates| - 1], r);
      assert rates == rates[..|rates| - 1] + [rates[|rates| - 1]];
    }
  }

  /** The first verdict that latches, None if none does. */
  function FirstLatching(verdicts: seq<Verdict>): (v: Option<Verdict>)
    ensures v.Some? ==> Latching(v.value.action)
  {
    if |verdicts| == 0 then None
    else if Latching(verdicts[0].action) then Some(verdicts[0]) else FirstLatching(verdicts[1..])
  }

  lemma {:induction false} NoneToLatch(verdicts: seq<Verdict>)
    requires NoneLatches(verdicts)
    ensures FirstLatching(verdicts) == None
  {
    if |verdicts| > 0 {
      NoneToLatch(verdicts[1..]);
    }
  }

  lemma {:induction false} FirstOfTwo(a: seq<Verdict>, b: seq<Verdict>)
    ensures FirstLatching(a + b) == if FirstLatching(a).Some? then FirstLatching(a) else FirstLatching(b)
  {
    if |a| == 0 {
      assert a + b == b;
    } else {
      assert (a + b)[1..] == a[1..] + b;
      FirstOfTwo(a[1..], b);
    }
  }

  /** The tick's first latching verdict is the global one, else the apex one, else the
      correlation one; per-bot and funding verdicts never latch. */
  lemma {:induction false} FirstCheckLatches(c: Config, t: Tick)
    ensures FirstLatching(Evaluated(c, t))
            == if CheckGlobal(c, t.portfolio).Some? then CheckGlobal(c, t.portfolio)
               else if ApexOf(c, t).Some? then ApexOf(c, t) else CorrelationOf(c, t)
  {
    if t.rates.Some? { FundingNeverLatches(c, t.rates.value); }
    BotsNeverLatch(c, t.bots);
    hide FundingVerdicts, BotVerdicts, HighPairs;
    assert NoneLatches(Lesser(c, t));
    NoneToLatch(Lesser(c, t));
    var apex, correlated := ApexOf(c, t), CorrelationOf(c, t);
    assert FirstLatching(Listed(apex)) == apex && FirstLatching(Listed(correlated)) == correlated;
    FirstOfTwo(Listed(apex), Listed(correlated));
    FirstOfTwo(Listed(apex) + Listed(correlated), Lesser(c, t));
  }

  ghost predicate NoneContinues(verdicts: seq<Verdict>) {
    forall i :: 0 <= i < |verdicts| ==> verdicts[i].action != Continue
  }

  lemma {:induction false} NoneContinuesTwice(a: seq<Verdict>, b: seq<Verdict>)
    requires NoneContinues(a) && NoneContinues(b)
    ensures NoneContinues(a + b)
  {
  }

  /** A tick is quiet, one CONTINUE and nothing else, exactly when no check fires; otherwise
      no verdict is CONTINUE. */
  lemma {:induction false} ContinueIffQuiet(c: Config, t: Tick)
    ensures |Evaluated(c, t)| > 0
    ensures Evaluated(c, t) == [QUIET] || NoneContinues(Evaluated(c, t))
    ensures Evaluated(c, t) == [QUIET] <==> NoBreach(c, t)
  {
    hide Lesser, CheckGlobal, ApexOf, CorrelationOf, NoBreach;
    NothingReported(c, t);
    FoundNeverContinues(c, t);
    var found := Listed(ApexOf(c, t)) + Listed(CorrelationOf(c, t)) + Lesser(c, t);
    if CheckGlobal(c, t.portfolio).None? && |found| > 0 {
      assert Evaluated(c, t) == found && found[0] != QUIET;
    }
  }

  lemma {:induction false} FoundNeverContinues(c: Config, t: Tick)
    ensures NoneContinues(Listed(ApexOf(c, t)) + Listed(CorrelationOf(c, t)) + Lesser(c, t))
    ensures CheckGlobal(c, t.portfolio).Some? ==> CheckGlobal(c, t.portfolio).value.action == FlattenAll
  {
    hide FundingVerdicts, BotVerdicts, HighPairs;
    if t.rates.Some? { FundingNeverLatches(c, t.rates.value); }
    BotsNeverLatch(c, t.bots);
    assert NoneLatches(Lesser(c, t));
    var apex, correlated := Listed(ApexOf(c, t)), Listed(CorrelationOf(c, t));
    assert NoneContinues(apex) && NoneContinues(correlated) && NoneContinues(Lesser(c, t));
    hide ApexOf, CorrelationOf, Lesser, NoneContinues, NoneLatches;
    NoneContinuesTwice(apex, correlated);
    NoneContinuesTwice(apex + correlated, Lesser(c, t));
  }

  lemma {:induction false} BotListed(c: Config, bots: seq<BotSnapshot>, k: nat)
    requires k < |bots| && CheckBot(c, bots[k]).Some?
    ensures CheckBot(c, bots[k]).value in BotVerdicts(c, bots)
  {
    hide CheckBot;
    if k < |bots| - 1 {
      BotListed(c, bots[..|bots| - 1], k);
    }
  }

  /** Short of a global trip every bot in breach is flattened by name. */
  lemma {:induction false} EveryBreachIsReported(c: Config, t: Tick, k: nat)
    requires k < |t.bots| && BotBreach(c, t.bots[k]) && !GlobalBreach(c, t.portfolio)
    ensures exists v :: v in Evaluated(c, t) && v.action == FlattenBot && v.scope == Bot(t.bots[k].name)
  {
    BotFiresIff(c, t.bots[k]);
    GlobalFiresIff(c, t.portfolio);
    BotListed(c, t.bots, k);
    hide CheckBot, CheckGlobal, ApexOf, CorrelationOf, BotVerdicts, FundingVerdicts, BotBreach, GlobalBreach;
    var v := CheckBot(c, t.bots[k]).value;
    assert v in Lesser(c, t);
    assert v in Evaluated(c, t);
  }

  function HighAt(pairs: seq<(string, real)>, threshold: real): set<int> {
    set i | 0 <= i < |pairs| && (pairs[i].1 >= threshold || -pairs[i].1 >= threshold)
  }

  lemma {:induction false} HighAtStep(pairs: seq<(string, real)>, threshold: real)
    requires |pairs| > 0
    ensures HighAt(pairs, threshold) == HighAt(pairs[..|pairs| - 1], threshold)
            + if Abs(pairs[|pairs| - 1].1) >= threshold then {|pairs| - 1} else {}
  {
  }

  /** The correlation kill counts exactly the pairs at or over the threshold. */
  lemma {:induction false} HighPairsCount(pairs: seq<(string, real)>, threshold: real)
    ensures |HighPairs(pairs, threshold)| == |HighAt(pairs, threshold)|
  {
    if |pairs| > 0 {
      HighPairsCount(pairs[..|pairs| - 1], threshold);
      HighAtStep(pairs, threshold);
      assert |pairs| - 1 !in HighAt(pairs[..|pairs| - 1], threshold);
      hide HighAt;
    }
  }

  /** The names it reports are those of these pairs, in order. */
  lemma {:induction false} HighPairsListed(pairs: seq<(string, real)>, threshold: real) returns (at: seq<int>)
    ensures |at| == |HighPairs(pairs, threshold)|
    ensures forall k :: 0 <= k < |at| ==>
              at[k] in HighAt(pairs, threshold) && HighPairs(pairs, threshold)[k] == pairs[at[k]].0
    ensures forall j, k :: 0 <= j < k < |at| ==> at[j] < at[k]
  {
    at := [];
    if |pairs| > 0 {
      at := HighPairsListed(pairs[..|pairs| - 1], threshold);
      if Abs(pairs[|pairs| - 1].1) >= threshold {
        at := at + [|pairs| - 1];
      }
    }
  }

  // ---------------------------------------------------------------- the reports in plain terms

  ghost predicate ApexBreach(c: Config, t: Tick) {
    t.apex.Some? && t.apex.value.distance <= Or(c.cushionUsd, 500.0)
  }

  ghost predicate CorrelationBreach(c: Config, t: Tick) {
    c.correlationOn && t.pairs.Some? && |HighAt(t.pairs.value, Or(c.correlation, 0.85))| >= Or(c.pairsRequired, 4)
  }

  /** The verdict on a portfolio in breach: a drawdown if it is one, else a daily loss, with the
      percentage of the peak and the limit. */
  ghost predicate TellsGlobal(c: Config, p: Portfolio, v: Verdict) {
    var loss := if p.dailyPnl < 0.0 then -p.dailyPnl else 0.0;
    && GlobalBreach(c, p) && v.action == FlattenAll && v.severity == Critical && v.scope == Global
    && if 100.0 * (p.peak - p.equity) >= Or(c.maxDrawdownPct, 100.0) * p.peak then
         && v.evidence.Drawdown? && v.evidence.cap == Or(c.maxDrawdownPct, 100.0)
         && v.evidence.pct * p.peak == 100.0 * (p.peak - p.equity)
       else
         && v.evidence.DailyLoss? && v.evidence.cap == Or(c.dailyLossPct, 100.0)
         && v.evidence.pct * p.peak == 100.0 * loss
  }

  ghost predicate TellsApex(c: Config, t: Tick, v: Verdict) {
    && ApexBreach(c, t)
    && v == Verdict(FlattenTierAPreemptive, Critical, TierA,
                    Cushion(t.apex.value.distance, Or(c.cushionUsd, 500.0), t.apex.value.trailingLimit))
  }

  ghost predicate TellsCorrelation(c: Config, t: Tick, v: Verdict) {
    && CorrelationBreach(c, t)
    && v == Verdict(FlattenTierB, Warn, TierB,
                    Correlated(HighPairs(t.pairs.value, Or(c.correlation, 0.85)), Or(c.correlation, 0.85),
                               Or(c.pairsRequired, 4)))
  }

  /** The rate of r reaches one of the two thresholds, in either direction. */
  ghost predicate RateBreach(c: Config, r: (string, real)) {
    || r.1 >= Or(c.hardBps, 50.0) || -r.1 >= Or(c.hardBps, 50.0)
    || r.1 >= Or(c.softBps, 20.0) || -r.1 >= Or(c.softBps, 20.0)
  }

  /** The verdict on a bot in breach: its tier's loss limit first, then its losing streak. */
  ghost predicate TellsBot(c: Config, b: BotSnapshot, v: Verdict) {
    var buckets := if b.tier.A? then c.bucketsA else c.bucketsB;
    var bucket := if b.name in buckets then buckets[b.name] else Bucket(None, None, None);
    var maxUsd, maxPct, streak := Or(bucket.maxLossUsd, 1.0e12), Or(bucket.maxLossPct, 100.0), Or(bucket.lossStreak, 0);
    && BotBreach(c, b) && v.action == FlattenBot && v.severity == Warn && v.scope == Bot(b.name)
    && if b.tier.A? && b.sessionPnl + maxUsd <= 0.0 then v.evidence == SessionLoss(b.sessionPnl, maxUsd)
       else if b.tier.B? && b.peak > 0.0 && 100.0 * (b.peak - b.equity) >= maxPct * b.peak then
         v.evidence.BotDrawdown? && v.evidence.cap == maxPct && v.evidence.pct * b.peak == 100.0 * (b.peak - b.equity)
       else v.evidence == LossStreak(b.losses, streak)
  }

  /** The verdicts a tick is due: one on the portfolio alone if that is in breach, else one for
      each breach of the apex cushion, the correlations, a funding rate or a bot, and if there
      is none of them that all is well. */
  ghost predicate Due(c: Config, t: Tick, v: Verdict) {
    if GlobalBreach(c, t.portfolio) then TellsGlobal(c, t.portfolio, v)
    else
      || TellsApex(c, t, v)
      || TellsCorrelation(c, t, v)
      || (t.rates.Some? && exists r :: r in t.rates.value && RateBreach(c, r) && Grades(c, r, v))
      || (exists b :: b in t.bots && TellsBot(c, b, v))
      || (v == QUIET && NoBreach(c, t))
  }

  ghost predicate NoBreach(c: Config, t: Tick) {
    && !GlobalBreach(c, t.portfolio) && !ApexBreach(c, t) && !CorrelationBreach(c, t)
    && (t.rates.Some? ==> forall r :: r in t.rates.value ==> !RateBreach(c, r))
    && forall b :: b in t.bots ==> !BotBreach(c, b)
  }

  lemma {:induction false} PercentTells(x: real, whole: real, pct: real, told: real)
    requires whole > 0.0 && pct == x / whole * 100.0
    ensures told * whole == 100.0 * x <==> told == pct
  {
    var share := x / whole;
    assert share * whole == x;
    assert pct * whole == 100.0 * x;
    if told * whole == 100.0 * x {
      assert (told - pct) * whole == 0.0;
      Quotient(told - pct, whole, 0.0);
    }
  }

  lemma {:induction false} GlobalTells(c: Config, p: Portfolio, v: Verdict)
    ensures CheckGlobal(c, p) == Some(v) <==> TellsGlobal(c, p, v)
  {
    hide CheckGlobal, TellsGlobal, GlobalBreach, GlobalVerdict;
    if p.equity > 0.0 && p.peak > 0.0 {
      var down, loss := p.peak - p.equity, if p.dailyPnl < 0.0 then -p.dailyPnl else 0.0;
      var dd, lost := down / p.peak * 100.0, loss / p.peak * 100.0;
      var ddCap, lossCap := Or(c.maxDrawdownPct, 100.0), Or(c.dailyLossPct, 100.0);
      PercentAtLeast(down, p.peak, ddCap, dd);
      PercentAtLeast(loss, p.peak, lossCap, lost);
      CheckGlobalIs(c, p, down, loss, dd, lost);
      TellsOf(c, p, v, down, loss, dd, lost);
    } else {
      NothingWithoutEquity(c, p, v);
    }
  }

  lemma {:induction false} NothingWithoutEquity(c: Config, p: Portfolio, v: Verdict)
    requires p.equity <= 0.0 || p.peak <= 0.0
    ensures CheckGlobal(c, p) == None && !TellsGlobal(c, p, v)
  {
  }

  lemma {:induction false} TellsOf(c: Config, p: Portfolio, v: Verdict, down: real, loss: real, dd: real, lost: real)
    requires p.equity > 0.0 && p.peak > 0.0 && down == p.peak - p.equity
    requires loss == (if p.dailyPnl < 0.0 then -p.dailyPnl else 0.0)
    requires dd == down / p.peak * 100.0 && lost == loss / p.peak * 100.0
    ensures GlobalVerdict(c, p, down, loss, dd, lost) == Some(v) <==> TellsGlobal(c, p, v)
  {
    hide TellsGlobal, GlobalVerdict;
    if v.evidence.Drawdown? {
      PercentTells(down, p.peak, dd, v.evidence.pct);
    } else if v.evidence.DailyLoss? {
      PercentTells(loss, p.peak, lost, v.evidence.pct);
    }
    TellsGlobalIs(c, p, v, down, loss, dd, lost);
  }

  /** The verdict of the global check, given the two percentages. */
  ghost function GlobalVerdict(c: Config, p: Portfolio, down: real, loss: real, dd: real, lost: real): Option<Verdict> {
    if 100.0 * down >= Or(c.maxDrawdownPct, 100.0) * p.peak then
      Some(Verdict(FlattenAll, Critical, Global, Drawdown(dd, Or(c.maxDrawdownPct, 100.0))))
    else if 100.0 * loss >= Or(c.dailyLossPct, 100.0) * p.peak then
      Some(Verdict(FlattenAll, Critical, Global, DailyLoss(lost, Or(c.dailyLossPct, 100.0))))
    else None
  }

  lemma {:induction false} CheckGlobalIs(c: Config, p: Portfolio, down: real, loss: real, dd: real, lost: real)
    requires p.equity > 0.0 && p.peak > 0.0 && down == p.peak - p.equity
    requires loss == (if p.dailyPnl < 0.0 then -p.dailyPnl else 0.0)
    requires dd == down / p.peak * 100.0 && lost == loss / p.peak * 100.0
    requires dd >= Or(c.maxDrawdownPct, 100.0) <==> 100.0 * down >= Or(c.maxDrawdownPct, 100.0) * p.peak
    requires lost >= Or(c.dailyLossPct, 100.0) <==> 100.0 * loss >= Or(c.dailyLossPct, 100.0) * p.peak
    ensures CheckGlobal(c, p) == GlobalVerdict(c, p, down, loss, dd, lost)
  {
  }

  lemma {:induction false} TellsGlobalIs(c: Config, p: Portfolio, v: Verdict, down: real, loss: real, dd: real,
                                         lost: real)
    requires p.equity > 0.0 && p.peak > 0.0 && down == p.peak - p.equity
    requires loss == (if p.dailyPnl < 0.0 then -p.dailyPnl else 0.0)
    requires v.evidence.Drawdown? ==> (v.evidence.pct * p.peak == 100.0 * down <==> v.evidence.pct == dd)
    requires v.evidence.DailyLoss? ==> (v.evidence.pct * p.peak == 100.0 * loss <==> v.evidence.pct == lost)
    ensures GlobalVerdict(c, p, down, loss, dd, lost) == Some(v) <==> TellsGlobal(c, p, v)
  {
  }

  lemma {:induction false} ApexTells(c: Config, t: Tick, v: Verdict)
    ensures ApexOf(c, t) == Some(v) <==> TellsApex(c, t, v)
  {
  }

  lemma {:induction false} CorrelationTells(c: Config, t: Tick, v: Verdict)
    ensures CorrelationOf(c, t) == Some(v) <==> TellsCorrelation(c, t, v)
  {
    if t.pairs.Some? {
      HighPairsCount(t.pairs.value, Or(c.correlation, 0.85));
    }
    hide HighPairs, HighAt;
  }

  lemma {:induction false} BotTells(c: Config, b: BotSnapshot, v: Verdict)
    ensures CheckBot(c, b) == Some(v) <==> TellsBot(c, b, v)
  {
    if b.tier.B? && b.peak > 0.0 {
      var down := b.peak - b.equity;
      var pct := down / b.peak * 100.0;
      PercentAtLeast(down, b.peak, Or(BucketOf(c, b).maxLossPct, 100.0), pct);
      if v.evidence.BotDrawdown? {
        PercentTells(down, b.peak, pct, v.evidence.pct);
      }
    }
  }

  lemma {:induction false} RateTells(c: Config, r: (string, real), v: Verdict)
    ensures CheckSymbol(c, r.0, r.1) == Some(v) <==> RateBreach(c, r) && Grades(c, r, v)
  {
  }

  lemma {:induction false} RatesTell(c: Config, rates: seq<(string, real)>, v: Verdict)
    ensures v in FundingVerdicts(c, rates) <==> exists r :: r in rates && RateBreach(c, r) && Grades(c, r, v)
  {
    hide RateBreach, Grades, CheckSymbol;
    if |rates| > 0 {
      var before, last := rates[..|rates| - 1], rates[|rates| - 1];
      assert rates == before + [last];
      RatesTell(c, before, v);
      RateTells(c, last, v);
    }
  }

  lemma {:induction false} BotsTell(c: Config, bots: seq<BotSnapshot>, v: Verdict)
    ensures v in BotVerdicts(c, bots) <==> exists b :: b in bots && TellsBot(c, b, v)
  {
    hide TellsBot, CheckBot;
    if |bots| > 0 {
      var before, last := bots[..|bots| - 1], bots[|bots| - 1];
      assert bots == before + [last];
      BotsTell(c, before, v);
      BotTells(c, last, v);
    }
  }

  /** A tick reports exactly the verdicts that are due. */
  lemma {:induction false} ReportsExactly(c: Config, t: Tick, v: Verdict)
    ensures v in Evaluated(c, t) <==> Due(c, t, v)
  {
    EvaluatedParts(c, t);
    GlobalFiresIff(c, t.portfolio);
    GlobalTells(c, t.portfolio, v);
    ApexTells(c, t, v);
    CorrelationTells(c, t, v);
    BotsTell(c, t.bots, v);
    if t.rates.Some? {
      RatesTell(c, t.rates.value, v);
    }
    NothingReported(c, t);
    hide Evaluated, CheckGlobal, ApexOf, CorrelationOf, FundingVerdicts, BotVerdicts, TellsGlobal, TellsApex,
         TellsCorrelation, TellsBot, RateBreach, Grades, GlobalBreach, NoBreach;
  }

  /** Nothing is found exactly when nothing is in breach. */
  lemma {:induction false} NothingReported(c: Config, t: Tick)
    ensures CheckGlobal(c, t.portfolio).None? && ApexOf(c, t).None? && CorrelationOf(c, t).None? && Lesser(c, t) == []
            <==> NoBreach(c, t)
  {
    GlobalFiresIff(c, t.portfolio);
    if t.pairs.Some? {
      HighPairsCount(t.pairs.value, Or(c.correlation, 0.85));
    }
    BotsQuiet(c, t.bots);
    if t.rates.Some? {
      RatesQuiet(c, t.rates.value);
    }
    hide CheckGlobal, GlobalBreach, HighPairs, HighAt, FundingVerdicts, BotVerdicts, RateBreach, BotBreach;
  }

  lemma {:induction false} RatesQuiet(c: Config, rates: seq<(string, real)>)
    ensures FundingVerdicts(c, rates) == [] <==> forall r :: r in rates ==> !RateBreach(c, r)
  {
    if |rates| > 0 {
      var before, last := rates[..|rates| - 1], rates[|rates| - 1];
      assert rates == before + [last];
      RatesQuiet(c, before);
      assert CheckSymbol(c, last.0, last.1).Some? <==> RateBreach(c, last);
      hide RateBreach, CheckSymbol;
    }
  }

  lemma {:induction false} BotsQuiet(c: Config, bots: seq<BotSnapshot>)
    ensures BotVerdicts(c, bots) == [] <==> forall b :: b in bots ==> !BotBreach(c, b)
  {
    hide BotBreach, CheckBot;
    if |bots| > 0 {
      var before, last := bots[..|bots| - 1], bots[|bots| - 1];
      assert bots == before + [last];
      BotsQuiet(c, before);
      BotFiresIff(c, last);
    }
  }

  ghost predicate Reports(c: Config, t: Tick, a: Action) {
    exists v :: v in Evaluated(c, t) && v.action == a
  }

  /** Each check fires exactly on its breach. */
  lemma {:induction false} TierChecksIff(c: Config, t: Tick)
    ensures CheckGlobal(c, t.portfolio).Some? <==> GlobalBreach(c, t.portfolio)
    ensures ApexOf(c, t).Some? <==> ApexBreach(c, t)
    ensures CorrelationOf(c, t).Some? <==> CorrelationBreach(c, t)
  {
    GlobalFiresIff(c, t.portfolio);
    if t.pairs.Some? {
      HighPairsCount(t.pairs.value, Or(c.correlation, 0.85));
    }
    hide CheckGlobal, GlobalBreach, HighPairs, HighAt;
  }

  /** So a tick flattens all exactly when the portfolio is in breach; otherwise it pre-empts
      tier A exactly on an apex breach, flattens tier B exactly on a correlation breach, and
      goes on exactly when nothing is in breach. */
  lemma {:induction false} TierActionsIff(c: Config, t: Tick)
    ensures Reports(c, t, FlattenAll) <==> GlobalBreach(c, t.portfolio)
    ensures Reports(c, t, FlattenTierAPreemptive) <==> !GlobalBreach(c, t.portfolio) && ApexBreach(c, t)
    ensures Reports(c, t, FlattenTierB) <==> !GlobalBreach(c, t.portfolio) && CorrelationBreach(c, t)
    ensures Reports(c, t, Continue) <==> NoBreach(c, t)
  {
    TierChecksIff(c, t);
    hide Evaluated, GlobalBreach, ApexBreach, CorrelationBreach, RateBreach, CheckGlobal, ApexOf, CorrelationOf,
         HighPairs;
    forall v ensures v in Evaluated(c, t) <==> Due(c, t, v) {
      ReportsExactly(c, t, v);
    }
    if GlobalBreach(c, t.portfolio) {
      var v := CheckGlobal(c, t.portfolio).value;
      GlobalTells(c, t.portfolio, v);
      assert v in Evaluated(c, t);
    } else {
      if ApexBreach(c, t) {
        var v := ApexOf(c, t).value;
        ApexTells(c, t, v);
        assert v in Evaluated(c, t);
      }
      if CorrelationBreach(c, t) {
        var v := CorrelationOf(c, t).value;
        CorrelationTells(c, t, v);
        assert v in Evaluated(c, t);
      }
      if NoBreach(c, t) {
        assert QUIET in Evaluated(c, t);
      }
    }
  }

  /** The first latching verdict of a tick tells a breach of the portfolio, else of the apex
      cushion, else of the correlations; there is none exactly without such a breach. */
  lemma {:induction false} TickLatches(c: Config, t: Tick)
    ensures Leads(c, t, FirstLatching(Evaluated(c, t)))
  {
    FirstCheckLatches(c, t);
    TierChecksIff(c, t);
    hide Evaluated, GlobalBreach, ApexBreach, CorrelationBreach, CheckGlobal, ApexOf, CorrelationOf, HighPairs,
      TellsGlobal, TellsApex, TellsCorrelation, FirstLatching;
    var first := FirstLatching(Evaluated(c, t));
    if first.Some? {
      GlobalTells(c, t.portfolio, first.value);
      ApexTells(c, t, first.value);
      CorrelationTells(c, t, first.value);
    }
  }

  ghost predicate Leads(c: Config, t: Tick, first: Option<Verdict>) {
    if GlobalBreach(c, t.portfolio) then first.Some? && TellsGlobal(c, t.portfolio, first.value)
    else if ApexBreach(c, t) then first.Some? && TellsApex(c, t, first.value)
    else if CorrelationBreach(c, t) then first.Some? && TellsCorrelation(c, t, first.value)
    else first == None
  }
}
