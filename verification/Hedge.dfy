/** Hedge portfolios: coverage arithmetic over exact rationals, tiers, and the filter and sort
    pipeline of the scan and analyze commands. */
module Hedge {
  import opened Text
  import opened Rounding
  import opened MarkPrice
  import opened StableSort
  import MarketSearch

  type Summary = MarketSearch.Summary

  const MIN_COVERAGE := 0.85
  const NECESSARY_PROBABILITY := 0.98

  datatype Side = Yes | No

  // A market as the portfolio builder takes it.
  datatype PricedMarket = PricedMarket(id: string, question: string, yesPrice: real, noPrice: real)

  datatype Portfolio = Portfolio(
    targetId: string, targetQuestion: string, targetSide: Side, targetPrice: real,
    coverId: string, coverQuestion: string, coverSide: Side, coverPrice: real,
    coverage: real, lossProbability: real, expectedProfit: real, totalCost: real,
    tier: int, tierLabel: string, relationship: string)

  // ---------- coverage ----------

  function Coverage(target: real, probability: real): real {
    target + (1.0 - target) * probability
  }

  function LossProbability(target: real, probability: real): real {
    (1.0 - target) * (1.0 - probability)
  }

  datatype Metrics = Metrics(coverage: real, lossProbability: real, expectedProfit: real)

  function CoverageMetrics(target: real, probability: real, totalCost: real): Metrics {
    var coverage := Coverage(target, probability);
    Metrics(Round4(coverage), Round4(LossProbability(target, probability)), Round4(coverage - totalCost))
  }

  /** Coverage and loss probability add up to one, before and after rounding to four places. */
  lemma RoundingConservesProbability(target: real, probability: real, totalCost: real)
    ensures Coverage(target, probability) + LossProbability(target, probability) == 1.0
    ensures var m := CoverageMetrics(target, probability, totalCost);
            m.coverage + m.lossProbability == 1.0
  {
    var rest := 1.0 - target;
    assert rest * (1.0 - probability) == rest - rest * probability;
    Round4Complement(Coverage(target, probability));
    assert 1.0 - Coverage(target, probability) == LossProbability(target, probability);
  }

  // ---------- tiers ----------

  const THRESHOLDS: seq<(real, int, string)> :=
    [(0.95, 1, "HIGH"), (0.90, 2, "GOOD"), (0.85, 3, "MODERATE"), (0.0, 4, "LOW")]

  function ScanThresholds(coverage: real, table: seq<(real, int, string)>): (int, string) {
    if table == [] then (4, "LOW")
    else if coverage >= table[0].0 then (table[0].1, table[0].2)
    else ScanThresholds(coverage, table[1..])
  }

  function ClassifyTier(coverage: real): (int, string) {
    ScanThresholds(coverage, THRESHOLDS)
  }

  // The least coverage of a portfolio in tier k or better; None when every coverage qualifies.
  function TierFloor(k: int): Option<real> {
    if k == 1 then Some(0.95) else if k == 2 then Some(0.90) else if k == 3 then Some(0.85) else None
  }

  /** A tier of at most k means coverage of at least that tier's threshold, so tiers fall as
      coverage rises. */
  lemma TierIsThreshold(coverage: real, k: int)
    ensures ClassifyTier(coverage).0 <= k
            <==> k >= 1 && (TierFloor(k).Some? ==> coverage >= TierFloor(k).value)
    ensures ClassifyTier(coverage) in {(1, "HIGH"), (2, "GOOD"), (3, "MODERATE"), (4, "LOW")}
  {
    var t := THRESHOLDS;
    assert t[1..] == [(0.90, 2, "GOOD"), (0.85, 3, "MODERATE"), (0.0, 4, "LOW")];
    assert t[1..][1..] == [(0.85, 3, "MODERATE"), (0.0, 4, "LOW")];
    assert t[1..][1..][1..] == [(0.0, 4, "LOW")];
    assert t[1..][1..][1..][1..] == [];
    assert ScanThresholds(coverage, t[1..][1..][1..]) == (4, "LOW");
    assert ScanThresholds(coverage, t[1..][1..]) == if coverage >= 0.85 then (3, "MODERATE") else (4, "LOW");
    assert ScanThresholds(coverage, t[1..])
           == if coverage >= 0.90 then (2, "GOOD") else if coverage >= 0.85 then (3, "MODERATE") else (4, "LOW");
  }

  // ---------- portfolios ----------

  function PriceOf(m: PricedMarket, side: Side): real {
    if side == Yes then m.yesPrice else m.noPrice
  }

  function BuildPortfolio(target: PricedMarket, cover: PricedMarket, targetSide: Side, coverSide: Side,
                          probability: real, relationship: string): Option<Portfolio>
  {
    var targetPrice, coverPrice := PriceOf(target, targetSide), PriceOf(cover, coverSide);
    var totalCost := Round4(targetPrice + coverPrice);
    if totalCost <= 0.0 || totalCost > 2.0 then None
    else
      var m := CoverageMetrics(targetPrice, probability, totalCost);
      if m.coverage < MIN_COVERAGE then None
      else
        var (tier, tierLabel) := ClassifyTier(m.coverage);
        Some(Portfolio(target.id, target.question, targetSide, Round4(targetPrice),
                       cover.id, cover.question, coverSide, Round4(coverPrice),
                       m.coverage, m.lossProbability, m.expectedProfit, totalCost, tier, tierLabel, relationship))
  }

  // What every portfolio that was built satisfies.
  predicate Built(p: Portfolio) {
    && (p.tier, p.tierLabel) == ClassifyTier(p.coverage)
    && p.coverage >= MIN_COVERAGE && 0.0 < p.totalCost <= 2.0
    && p.coverage + p.lossProbability == 1.0
  }

  lemma BuildPortfolioBuilds(target: PricedMarket, cover: PricedMarket, targetSide: Side, coverSide: Side,
                             probability: real, relationship: string)
    ensures var r := BuildPortfolio(target, cover, targetSide, coverSide, probability, relationship);
            r.Some? ==> Built(r.value)
  {
    var price := PriceOf(target, targetSide);
    RoundingConservesProbability(price, probability, Round4(price + PriceOf(cover, coverSide)));
  }

  /** A portfolio is built exactly when its rounded cost is positive and at most 2 and its rounded
      coverage is 0.85 at least. */
  lemma BuildPortfolioIff(target: PricedMarket, cover: PricedMarket, targetSide: Side, coverSide: Side,
                          probability: real, relationship: string)
    ensures var price, other := PriceOf(target, targetSide), PriceOf(cover, coverSide);
            BuildPortfolio(target, cover, targetSide, coverSide, probability, relationship).Some?
            <==> 0.0 < Round4(price + other) <= 2.0 && Round4(price + (1.0 - price) * probability) >= 0.85
  {
    hide Round4, ClassifyTier, PriceOf;
  }

  // ---------- the pipeline ----------

  function WithinTier(k: int): Portfolio -> bool {
    (p: Portfolio) => p.tier <= k
  }

  function Covers(least: real): Portfolio -> bool {
    (p: Portfolio) => p.coverage >= least
  }

  // The sort key (tier, -coverage, total cost), compared as a tuple.
  predicate KeyLe(a: Portfolio, b: Portfolio) {
    a.tier < b.tier || (a.tier == b.tier && CoverageKeyLe(a, b))
  }

  // The key without the tier.
  predicate CoverageKeyLe(a: Portfolio, b: Portfolio) {
    a.coverage > b.coverage || (a.coverage == b.coverage && a.totalCost <= b.totalCost)
  }

  function SortPortfolios(ps: seq<Portfolio>): seq<Portfolio> {
    Sort(KeyLe, ps)
  }

  function Scan(found: seq<Portfolio>, minCoverage: real, maxTier: int): seq<Portfolio> {
    SortPortfolios(Filter(WithinTier(maxTier), Filter(Covers(minCoverage), found)))
  }

  function Analyze(found: seq<Portfolio>, minCoverage: real): seq<Portfolio> {
    Filter(Covers(minCoverage), SortPortfolios(found))
  }

  ghost predicate AllBuilt(ps: seq<Portfolio>) {
    forall p :: p in ps ==> Built(p)
  }

  lemma BetterCoverageBetterTier(a: Portfolio, b: Portfolio)
    requires Built(a) && Built(b) && a.coverage >= b.coverage
    ensures a.tier <= b.tier
  {
    TierIsThreshold(a.coverage, b.tier);
    TierIsThreshold(b.coverage, b.tier);
  }

  lemma KeysArePreorders()
    ensures Preorder(KeyLe) && Preorder(CoverageKeyLe)
  {
  }

  /** What the scan command lists: every portfolio found within both limits, as often as it was found,
      and no other; a better tier first, then more coverage, then less cost. */
  lemma ScanLists(found: seq<Portfolio>, minCoverage: real, maxTier: int)
    ensures var listed := Scan(found, minCoverage, maxTier);
            && (forall p: Portfolio :: multiset(listed)[p]
                            == if p.tier <= maxTier && p.coverage >= minCoverage then multiset(found)[p] else 0)
            && forall i, j :: 0 <= i < j < |listed| ==>
                 var a, b := listed[i], listed[j];
                 || a.tier < b.tier
                 || (a.tier == b.tier
                     && (a.coverage > b.coverage || (a.coverage == b.coverage && a.totalCost <= b.totalCost)))
  {
    var covered := Filter(Covers(minCoverage), found);
    var kept := Filter(WithinTier(maxTier), covered);
    KeysArePreorders();
    SortSorts(KeyLe, kept);
    forall p: Portfolio
      ensures multiset(kept)[p] == if p.tier <= maxTier && p.coverage >= minCoverage then multiset(found)[p] else 0
    {
      FilterCounts(Covers(minCoverage), found, p);
      FilterCounts(WithinTier(maxTier), covered, p);
    }
    var listed := Scan(found, minCoverage, maxTier);
    assert forall i, j :: 0 <= i < j < |listed| ==> KeyLe(listed[i], listed[j]);
  }

  /** Built portfolios: the tier in the sort key decides nothing that coverage and cost do not. */
  lemma TierKeyIsRedundant(ps: seq<Portfolio>)
    requires AllBuilt(ps)
    ensures SortPortfolios(ps) == Sort(CoverageKeyLe, ps)
  {
    forall a, b | a in ps && b in ps
      ensures KeyLe(a, b) <==> CoverageKeyLe(a, b)
    {
      if a.coverage >= b.coverage {
        BetterCoverageBetterTier(a, b);
      }
      if b.coverage >= a.coverage {
        BetterCoverageBetterTier(b, a);
      }
    }
    KeysArePreorders();
    SortCongruent(KeyLe, CoverageKeyLe, ps);
  }

  /** Built portfolios: filtering by tier is filtering by that tier's coverage threshold; a limit
      under one keeps nothing, a limit of three or more keeps everything. */
  lemma {:induction false} TierFilterIsCoverageFilter(ps: seq<Portfolio>, k: int)
    requires AllBuilt(ps)
    ensures Filter(WithinTier(k), ps)
            == if k < 1 then [] else if k >= 3 then ps else Filter(Covers(TierFloor(k).value), ps)
  {
    if ps != [] {
      assert ps[0] in ps;
      TierIsThreshold(ps[0].coverage, k);
      TierFilterIsCoverageFilter(ps[1..], k);
    }
  }

  /** The scan command filters and then sorts, the analyze command sorts and then filters: on the
      same portfolios they list the same, up to the scan's tier limit. */
  lemma ScanIsAnalyze(found: seq<Portfolio>, minCoverage: real, maxTier: int)
    ensures Scan(found, minCoverage, maxTier) == Filter(WithinTier(maxTier), Analyze(found, minCoverage))
    ensures AllBuilt(found) && maxTier >= 3 ==> Scan(found, minCoverage, maxTier) == Analyze(found, minCoverage)
  {
    KeysArePreorders();
    var covered := Filter(Covers(minCoverage), found);
    FilterSort(KeyLe, WithinTier(maxTier), covered);
    FilterSort(KeyLe, Covers(minCoverage), found);
    if AllBuilt(found) && maxTier >= 3 {
      FilterMembers(Covers(minCoverage), found);
      TierFilterIsCoverageFilter(covered, maxTier);
    }
  }

  // ---------- the hedge service ----------

  function AsMarket(s: Summary): PricedMarket {
    PricedMarket(s.id, s.question, s.yesMark, s.noMark)
  }

  // The model's verdict on a pair: the explanations found in each direction.
  datatype Verdict = Verdict(impliedBy: seq<string>, implies: seq<string>)

  datatype Relationship = Relationship(target: Side, cover: Side, text: string)

  function RelationshipOf(v: Verdict): Option<Relationship> {
    if v.impliedBy != [] then Some(Relationship(Yes, No, "necessary (contrapositive): " + v.impliedBy[0]))
    else if v.implies != [] then Some(Relationship(No, Yes, "necessary (direct): " + v.implies[0]))
    else None
  }

  // Without a verdict service the fixture relationship is used for every pair.
  function RelationshipFor(left: Summary, right: Summary, verdict: Option<Verdict>): Option<Relationship> {
    match verdict
    case None =>
      Some(Relationship(No, Yes, "necessary (fixture): " + left.question + " YES implies " + right.question + " YES"))
    case Some(v) => RelationshipOf(v)
  }

  function PairPortfolios(left: Summary, right: Summary, verdict: Option<Verdict>): seq<Portfolio> {
    match RelationshipFor(left, right, verdict)
    case None => []
    case Some(r) =>
      match BuildPortfolio(AsMarket(left), AsMarket(right), r.target, r.cover, NECESSARY_PROBABILITY, r.text)
      case None => []
      case Some(p) => [p]
  }

  // The anchor paired with each candidate, in order.
  function Found(anchor: Summary, candidates: seq<Summary>, verdicts: Summary -> Option<Verdict>): seq<Portfolio> {
    if candidates == [] then []
    else
      var last := candidates[|candidates| - 1];
      Found(anchor, candidates[..|candidates| - 1], verdicts) + PairPortfolios(anchor, last, verdicts(last))
  }

  method ScanPortfolios(summaries: seq<Summary>, verdicts: Summary -> Option<Verdict>)
    returns (portfolios: seq<Portfolio>)
    ensures portfolios == if |summaries| < 2 then [] else Found(summaries[0], summaries[1..], verdicts)
  {
    if |summaries| < 2 {
      return [];
    }
    var anchor, candidates := summaries[0], summaries[1..];
    portfolios := [];
    for i := 0 to |candidates|
      invariant portfolios == Found(anchor, candidates[..i], verdicts)
    {
      portfolios := portfolios + PairPortfolios(anchor, candidates[i], verdicts(candidates[i]));
      assert candidates[..i + 1][..i] == candidates[..i];
    }
    assert candidates[..|candidates|] == candidates;
  }

  predicate MarksInRange(s: Summary) {
    InUnit(s.yesMark) && InUnit(s.noMark)
  }

  lemma HedgeCoverage(target: real)
    requires InUnit(target)
    ensures 0.98 <= Round4(Coverage(target, NECESSARY_PROBABILITY)) <= 1.0
  {
    assert Coverage(target, NECESSARY_PROBABILITY) == 0.98 + 0.02 * target;
    Round4Monotone(0.98, Coverage(target, NECESSARY_PROBABILITY));
    Round4Monotone(Coverage(target, NECESSARY_PROBABILITY), 1.0);
    Round4Exact(9800);
    Round4Exact(10000);
  }

  /** With marks between 0 and 1 every portfolio a pair can give has coverage at least 0.98, loses
      with probability at most 0.02 and is in tier 1; a related pair gives one exactly when its
      rounded cost is positive. */
  lemma PairIsTierOne(left: Summary, right: Summary, verdict: Option<Verdict>)
    requires MarksInRange(left) && MarksInRange(right)
    ensures forall p :: p in PairPortfolios(left, right, verdict) ==>
              Built(p) && p.coverage >= 0.98 && p.lossProbability <= 0.02 && p.tier == 1
    ensures var r := RelationshipFor(left, right, verdict);
            PairPortfolios(left, right, verdict) != []
            <==> && r.Some?
                 && Round4(PriceOf(AsMarket(left), r.value.target) + PriceOf(AsMarket(right), r.value.cover)) > 0.0
  {
    match RelationshipFor(left, right, verdict)
    case None =>
    case Some(r) => RelatedPair(AsMarket(left), AsMarket(right), r);
  }

  lemma RelatedPair(target: PricedMarket, cover: PricedMarket, r: Relationship)
    requires InUnit(target.yesPrice) && InUnit(target.noPrice) && InUnit(cover.yesPrice) && InUnit(cover.noPrice)
    ensures var p := BuildPortfolio(target, cover, r.target, r.cover, NECESSARY_PROBABILITY, r.text);
            && (p.Some? <==> Round4(PriceOf(target, r.target) + PriceOf(cover, r.cover)) > 0.0)
            && (p.Some? ==> && Built(p.value) && p.value.coverage >= 0.98
                            && p.value.lossProbability <= 0.02 && p.value.tier == 1)
  {
    var cost := PriceOf(target, r.target) + PriceOf(cover, r.cover);
    HedgeCoverage(PriceOf(target, r.target));
    Round4Monotone(cost, 2.0);
    Round4Exact(20000);
    BuildPortfolioBuilds(target, cover, r.target, r.cover, NECESSARY_PROBABILITY, r.text);
    TierIsThreshold(Round4(Coverage(PriceOf(target, r.target), NECESSARY_PROBABILITY)), 1);
  }

  /** The summary of a market quoted between 0 and 1 has such marks. */
  lemma QuotedSummaryInRange(m: MarketSearch.Market)
    requires QuotesInUnit(MarketSearch.QuotesOf(m))
    ensures MarksInRange(MarketSearch.Summarize(m))
  {
    MarksInUnit(MarketSearch.QuotesOf(m), Digits(m.precision));
  }

  // ---------- what a pair is, in terms of its markets ----------

  // The legs bought at these marks: prices, cost, coverage and profit.
  predicate BoughtAt(p: Portfolio, target: real, cover: real) {
    && p.targetPrice == Round4(target) && p.coverPrice == Round4(cover)
    && p.totalCost == Round4(target + cover)
    && p.coverage == Round4(target + (1.0 - target) * 0.98)
    && p.lossProbability == Round4((1.0 - target) * 0.02)
    && p.expectedProfit == Round4(target + (1.0 - target) * 0.98 - p.totalCost)
  }

  // Left is bought on NO and right on YES, each at the mark of that side.
  predicate NoAndYes(p: Portfolio, left: Summary, right: Summary) {
    p.targetSide == No && p.coverSide == Yes && BoughtAt(p, left.noMark, right.yesMark)
  }

  predicate YesAndNo(p: Portfolio, left: Summary, right: Summary) {
    p.targetSide == Yes && p.coverSide == No && BoughtAt(p, left.yesMark, right.noMark)
  }

  // The portfolio of a pair, over the marks of its markets: YES and NO when the right market implies
  // the left one, NO and YES when the left one implies the right one, and for the fixture.
  predicate Hedges(p: Portfolio, left: Summary, right: Summary, verdict: Option<Verdict>) {
    && p.targetId == left.id && p.targetQuestion == left.question
    && p.coverId == right.id && p.coverQuestion == right.question
    && match verdict
       case None =>
         && NoAndYes(p, left, right)
         && p.relationship == "necessary (fixture): " + left.question + " YES implies " + right.question + " YES"
       case Some(v) =>
         if v.impliedBy != [] then
           YesAndNo(p, left, right) && p.relationship == "necessary (contrapositive): " + v.impliedBy[0]
         else
           && v.implies != []
           && NoAndYes(p, left, right) && p.relationship == "necessary (direct): " + v.implies[0]
  }

  // Whether a pair gives a portfolio: it is related and the two legs cost something.
  predicate Yields(left: Summary, right: Summary, verdict: Option<Verdict>) {
    match verdict
    case None => Round4(left.noMark + right.yesMark) > 0.0
    case Some(v) =>
      if v.impliedBy != [] then Round4(left.yesMark + right.noMark) > 0.0
      else v.implies != [] && Round4(left.noMark + right.yesMark) > 0.0
  }

  lemma PairHedges(left: Summary, right: Summary, verdict: Option<Verdict>)
    requires MarksInRange(left) && MarksInRange(right)
    ensures var ps := PairPortfolios(left, right, verdict);
            if Yields(left, right, verdict) then |ps| == 1 && Hedges(ps[0], left, right, verdict) else ps == []
  {
    hide Round4, ClassifyTier;
    PairIsTierOne(left, right, verdict);
    assert 1.0 - NECESSARY_PROBABILITY == 0.02;
  }

  /** What a scan finds: in the order of the candidates, one portfolio for each candidate that yields
      one with the anchor, and that portfolio is what the marks of the two markets make it. */
  lemma {:induction false} FoundExactly(anchor: Summary, candidates: seq<Summary>, verdicts: Summary -> Option<Verdict>)
    returns (at: seq<nat>)
    requires MarksInRange(anchor) && forall s :: s in candidates ==> MarksInRange(s)
    ensures |at| == |Found(anchor, candidates, verdicts)|
    ensures forall i, j :: 0 <= i < j < |at| ==> at[i] < at[j]
    ensures forall k: nat ::
              k in at <==> k < |candidates| && Yields(anchor, candidates[k], verdicts(candidates[k]))
    ensures forall i :: 0 <= i < |at| ==>
              at[i] < |candidates|
              && Hedges(Found(anchor, candidates, verdicts)[i], anchor, candidates[at[i]], verdicts(candidates[at[i]]))
  {
    hide Yields, Hedges, MarksInRange, PairPortfolios;
    if candidates == [] {
      at := [];
    } else {
      var n := |candidates| - 1;
      var init, last := candidates[..n], candidates[n];
      assert last in candidates;
      var before := FoundExactly(anchor, init, verdicts);
      PairHedges(anchor, last, verdicts(last));
      at := before + if Yields(anchor, last, verdicts(last)) then [n] else [];
      assert forall k: nat :: k < n ==> init[k] == candidates[k];
    }
  }

  predicate Pays(side: Side, outcome: bool) {
    if side == Yes then outcome else !outcome
  }

  // The outcomes of the two markets do not contradict what the verdict says about them.
  predicate Consistent(verdict: Option<Verdict>, left: bool, right: bool) {
    match verdict
    case None => left ==> right
    case Some(v) => (v.impliedBy != [] ==> (right ==> left)) && (v.implies != [] ==> (left ==> right))
  }

  /** The point of a hedge: however the two markets turn out, as long as the implication holds, at
      least one of the two legs pays. */
  lemma OneLegPays(p: Portfolio, left: Summary, right: Summary, verdict: Option<Verdict>, l: bool, r: bool)
    requires p in PairPortfolios(left, right, verdict) && Consistent(verdict, l, r)
    ensures Pays(p.targetSide, l) || Pays(p.coverSide, r)
  {
    hide ClassifyTier, Round4;
  }

  lemma {:induction false} FoundIsTierOne(anchor: Summary, candidates: seq<Summary>, verdicts: Summary -> Option<Verdict>)
    requires MarksInRange(anchor) && forall s :: s in candidates ==> MarksInRange(s)
    ensures forall p :: p in Found(anchor, candidates, verdicts) ==>
              Built(p) && p.coverage >= 0.98 && p.lossProbability <= 0.02 && p.tier == 1
  {
    if candidates != [] {
      var last := candidates[|candidates| - 1];
      assert last in candidates;
      FoundIsTierOne(anchor, candidates[..|candidates| - 1], verdicts);
      PairIsTierOne(anchor, last, verdicts(last));
    }
  }

  /** On such markets neither filter of the scan ever drops anything: for any tier limit of at least
      one and any coverage limit up to 0.98 the scan is just the sort. */
  lemma ScanDropsNothing(anchor: Summary, candidates: seq<Summary>, verdicts: Summary -> Option<Verdict>,
                         minCoverage: real, maxTier: int)
    requires MarksInRange(anchor) && forall s :: s in candidates ==> MarksInRange(s)
    requires minCoverage <= 0.98 && maxTier >= 1
    ensures var found := Found(anchor, candidates, verdicts);
            Scan(found, minCoverage, maxTier) == SortPortfolios(found)
  {
    var found := Found(anchor, candidates, verdicts);
    FoundIsTierOne(anchor, candidates, verdicts);
    forall i | 0 <= i < |found|
      ensures Covers(minCoverage)(found[i]) && WithinTier(maxTier)(found[i])
    {
      assert found[i] in found;
    }
    FilterAll(Covers(minCoverage), found);
    FilterAll(WithinTier(maxTier), found);
  }

  ghost predicate AllQuotedInUnit(catalogue: seq<MarketSearch.Market>) {
    forall m :: m in catalogue ==> QuotesInUnit(MarketSearch.QuotesOf(m))
  }

  /** From the catalogue to the scan: when every market is quoted between 0 and 1, every summary a
      search can answer has marks between 0 and 1. */
  lemma SearchedInRange(catalogue: seq<MarketSearch.Market>, limit: int, answer: seq<Summary>, at: seq<nat>)
    requires AllQuotedInUnit(catalogue)
    requires var window := MarketSearch.Window(catalogue);
             MarketSearch.InWindow(window, at) && MarketSearch.IsTop(MarketSearch.SummariesAt(window, at), limit, answer)
    ensures forall s :: s in answer ==> MarksInRange(s)
  {
    hide MarketSearch.Summarize, MarketSearch.QuotesOf, QuotesInUnit, MarksInRange, MarketSearch.Ranking;
    var window := MarketSearch.Window(catalogue);
    var summaries := MarketSearch.SummariesAt(window, at);
    FilterMembers(MarketSearch.IsOpen(), catalogue);
    forall s | s in answer
      ensures MarksInRange(s)
    {
      assert s in multiset(answer);
      assert s in multiset(summaries);
      var i :| 0 <= i < |summaries| && summaries[i] == s;
      assert window[at[i]] in MarketSearch.Open(catalogue);
      QuotedSummaryInRange(window[at[i]]);
    }
  }

  /** So a scan over the answer of such a search finds tier 1 portfolios only, and its filters drop
      none of them. */
  lemma SearchedScanDropsNothing(
    catalogue: seq<MarketSearch.Market>, limit: int, answer: seq<Summary>, at: seq<nat>,
    verdicts: Summary -> Option<Verdict>, minCoverage: real, maxTier: int)
    requires AllQuotedInUnit(catalogue) && |answer| >= 2 && minCoverage <= 0.98 && maxTier >= 1
    requires var window := MarketSearch.Window(catalogue);
             MarketSearch.InWindow(window, at) && MarketSearch.IsTop(MarketSearch.SummariesAt(window, at), limit, answer)
    ensures var found := Found(answer[0], answer[1..], verdicts);
            && Scan(found, minCoverage, maxTier) == SortPortfolios(found)
            && forall p :: p in found ==> p.tier == 1 && p.coverage >= 0.98
  {
    hide MarketSearch.IsTop, Found, Scan, Built;
    SearchedInRange(catalogue, limit, answer, at);
    FoundIsTierOne(answer[0], answer[1..], verdicts);
    ScanDropsNothing(answer[0], answer[1..], verdicts, minCoverage, maxTier);
  }
}
