/** Searching the market list page by page. */
module MarketSearch {
  import opened Text
  import opened StableSort
  import opened MarkPrice

  // Supporting data of a market: loaded, not there (a default is used), or failing to load.
  datatype Loaded<+T> = Loaded(value: T) | NotThere | Unavailable

  datatype Book = Book(ask: Option<real>, bid: Option<real>)

  datatype Market = Market(
    id: string, title: Option<string>, question: Option<string>, category: Option<string>,
    status: string, feeBps: Option<int>, precision: Option<int>, volume: Option<real>,
    stats: Loaded<Option<real>>, lastSale: Loaded<Option<real>>, book: Loaded<Book>)

  datatype Summary = Summary(
    id: string, title: string, question: string, category: string, feeBps: Option<int>,
    yesMark: real, noMark: real, volume: real, precision: int)

  datatype Outcome<+T> = Ok(value: T) | ApiError

  // ---------- the server ----------

  function IsOpen(): Market -> bool {
    (m: Market) => m.status == "OPEN"
  }

  function Open(catalogue: seq<Market>): seq<Market> {
    Filter(IsOpen(), catalogue)
  }

  function Min(a: int, b: int): int {
    if a <= b then a else b
  }

  // The slice [skip : skip + first] of the open markets.
  function Page(catalogue: seq<Market>, skip: nat, first: nat): seq<Market> {
    var open := Open(catalogue);
    open[Min(skip, |open|)..Min(skip + first, |open|)]
  }

  // ---------- matching ----------

  function OrEmpty(s: Option<string>): string {
    if s.Some? then s.value else ""
  }

  function Matches(query: string): Market -> bool {
    var normalized := Strip(Lower(query));
    (m: Market) =>
      || Contains(Lower(OrEmpty(m.title)), normalized)
      || Contains(Lower(OrEmpty(m.question)), normalized)
      || Contains(Lower(OrEmpty(m.category)), normalized)
  }

  // The text occurs in the other one, whatever the case of letters.
  predicate Mentions(hay: string, text: string) {
    exists i :: 0 <= i <= |hay| && MentionsAt(hay, text, i)
  }

  predicate MentionsAt(hay: string, text: string, i: nat) {
    i + |text| <= |hay| && SameText(hay[i..i + |text|], text)
  }

  predicate MentionedIn(x: Option<string>, text: string) {
    (x.Some? && Mentions(x.value, text)) || text == ""
  }

  /** A market matches a query when its title, its question or its category mentions it, blanks around
      the query and the case of letters apart; a blank query matches every market. */
  lemma MatchesIff(lead: string, query: string, trail: string, m: Market)
    requires Blank(lead) && Blank(trail) && (query != "" ==> !IsSpace(query[0]) && !IsSpace(query[|query| - 1]))
    ensures Matches(lead + query + trail)(m)
            <==> MentionedIn(m.title, query) || MentionedIn(m.question, query) || MentionedIn(m.category, query)
  {
    hide Strip, Lower, Contains, Mentions;
    StripLower(lead + query + trail);
    StripPad(lead, query, trail);
    ContainsIff(OrEmpty(m.title), query);
    ContainsIff(OrEmpty(m.question), query);
    ContainsIff(OrEmpty(m.category), query);
    EmptyMention(query);
  }

  // Nothing is mentioned in an empty text but the empty text.
  lemma EmptyMention(text: string)
    ensures Mentions("", text) <==> text == ""
    ensures forall hay :: text == "" ==> Mentions(hay, text)
  {
    forall hay | text == ""
      ensures Mentions(hay, text)
    {
      assert MentionsAt(hay, text, 0);
    }
  }

  lemma ContainsIff(hay: string, text: string)
    ensures Contains(Lower(hay), Lower(text)) <==> Mentions(hay, text)
  {
    hide SameText;
    forall i: nat | i <= |hay|
      ensures OccursAt(Lower(hay), Lower(text), i) <==> MentionsAt(hay, text, i)
    {
      if i + |text| <= |hay| {
        CaseForms(hay[i..i + |text|], text);
        assert Lower(hay)[i..i + |text|] == Lower(hay[i..i + |text|]);
      }
    }
  }

  // ---------- summaries ----------

  // What is there is used, what is not there counts as empty.
  function OrNone<T>(x: Loaded<Option<T>>): Option<T> {
    if x.Loaded? then x.value else None
  }

  // stats.volume or market.volume or 0: a zero counts as absent.
  function VolumeOf(m: Market): real {
    var loaded := OrNone(m.stats);
    if loaded.Some? && loaded.value != 0.0 then loaded.value
    else if m.volume.Some? then m.volume.value else 0.0
  }

  function QuotesOf(m: Market): Quotes {
    var book := if m.book.Loaded? then m.book.value else Book(None, None);
    Quotes(book.ask, book.bid, OrNone(m.lastSale))
  }

  function Summarize(m: Market): Summary {
    var digits := Digits(m.precision);
    Summary(
      m.id, OrEmpty(m.title),
      if OrEmpty(m.question) != "" then OrEmpty(m.question) else OrEmpty(m.title),
      OrEmpty(m.category), m.feeBps, YesMark(QuotesOf(m), digits), NoMark(QuotesOf(m), digits), VolumeOf(m), digits)
  }

  // What was loaded for a market; what is not there was not quoted or sold.
  predicate QuotedAs(m: Market, q: Quotes) {
    && (m.book.Loaded? ==> q.ask == m.book.value.ask && q.bid == m.book.value.bid)
    && (!m.book.Loaded? ==> q.ask == None && q.bid == None)
    && (m.lastSale.Loaded? ==> q.lastSale == m.lastSale.value) && (!m.lastSale.Loaded? ==> q.lastSale == None)
  }

  /** What a summary says: the question or else the title; the marks of what was loaded, with two digits
      unless the market names another number of them; the loaded volume, unless that is zero, or else
      the market's own. */
  lemma SummaryMeans(m: Market, q: Quotes)
    requires QuotedAs(m, q)
    ensures var s := Summarize(m);
            && s.id == m.id && s.feeBps == m.feeBps
            && s.title == (if m.title.Some? then m.title.value else "")
            && s.category == (if m.category.Some? then m.category.value else "")
            && (m.question == None || m.question == Some("") ==> s.question == s.title)
            && (m.question != None && m.question != Some("") ==> m.question == Some(s.question))
            && s.precision != 0
            && (m.precision == Some(s.precision) || (s.precision == 2 && m.precision in {None, Some(0)}))
            && s.yesMark == YesMark(q, s.precision) && s.noMark == NoMark(q, s.precision)
    ensures var s := Summarize(m);
            && (forall v :: m.stats == Loaded(Some(v)) && v != 0.0 ==> s.volume == v)
            && (m.stats in {NotThere, Unavailable, Loaded(None), Loaded(Some(0.0))} ==>
                  m.volume == Some(s.volume) || (m.volume == None && s.volume == 0.0))
  {
    assert QuotesOf(m) == q;
  }

  predicate Loadable(m: Market) {
    !m.stats.Unavailable? && !m.lastSale.Unavailable? && !m.book.Unavailable?
  }

  function Summaries(markets: seq<Market>): seq<Summary> {
    seq(|markets|, i requires 0 <= i < |markets| => Summarize(markets[i]))
  }

  // One summary per market, in order, unless some market's figures cannot be loaded.
  function Enriched(markets: seq<Market>): Outcome<seq<Summary>> {
    if forall i :: 0 <= i < |markets| ==> Loadable(markets[i]) then Ok(Summaries(markets)) else ApiError
  }

  // Descending volume.
  predicate ByVolume(a: Summary, b: Summary) {
    a.volume >= b.volume
  }

  // Python's xs[:limit].
  function Limited<T>(xs: seq<T>, limit: int): seq<T> {
    if limit >= 0 then xs[..Min(limit, |xs|)]
    else if |xs| + limit >= 0 then xs[..|xs| + limit] else []
  }

  const PAGES := 5
  const PAGE_SIZE := 100

  // The first 500 open markets, and the matches among them.
  function Window(catalogue: seq<Market>): seq<Market> {
    Open(catalogue)[..Min(PAGES * PAGE_SIZE, |Open(catalogue)|)]
  }

  function Found(catalogue: seq<Market>, query: string): seq<Market> {
    Filter(Matches(query), Window(catalogue))
  }

  function Ranked(summaries: seq<Summary>): seq<Summary> {
    Sort(ByVolume, summaries)
  }

  method EnrichMarkets(markets: seq<Market>) returns (r: Outcome<seq<Summary>>)
    ensures r == Enriched(markets)
  {
    hide Summarize;
    var summaries: seq<Summary> := [];
    for i := 0 to |markets|
      invariant forall j :: 0 <= j < i ==> Loadable(markets[j])
      invariant |summaries| == i && forall j :: 0 <= j < i ==> summaries[j] == Summarize(markets[j])
    {
      if markets[i].stats.Unavailable? || markets[i].lastSale.Unavailable? || markets[i].book.Unavailable? {
        return ApiError;
      }
      summaries := summaries + [Summarize(markets[i])];
    }
    assert summaries == Summaries(markets);
    r := Ok(summaries);
  }

  // The first n pages of the open markets.
  function FirstPages(catalogue: seq<Market>, n: nat): seq<Market> {
    Open(catalogue)[..Min(n * PAGE_SIZE, |Open(catalogue)|)]
  }

  lemma NextPage(catalogue: seq<Market>, n: nat)
    ensures FirstPages(catalogue, n + 1) == FirstPages(catalogue, n) + Page(catalogue, n * PAGE_SIZE, PAGE_SIZE)
  {
    hide Open;
  }

  // An empty page is behind the last market.
  lemma EmptyPage(catalogue: seq<Market>, n: nat)
    requires n <= PAGES && Page(catalogue, n * PAGE_SIZE, PAGE_SIZE) == []
    ensures FirstPages(catalogue, n) == FirstPages(catalogue, PAGES)
  {
    hide Open;
  }

  lemma NoPages(catalogue: seq<Market>)
    ensures FirstPages(catalogue, 0) == [] && FirstPages(catalogue, PAGES) == Window(catalogue)
  {
    hide Open;
  }

  // Five pages, stopping at the first empty one.
  method CollectMatches(catalogue: seq<Market>, query: string) returns (matches: seq<Market>)
    ensures matches == Found(catalogue, query)
  {
    hide Open, Page, FirstPages, Window, Matches;
    NoPages(catalogue);
    matches := [];
    var page := 0;
    while page < PAGES
      invariant 0 <= page <= PAGES
      invariant matches == Filter(Matches(query), FirstPages(catalogue, page))
    {
      var pageMarkets := Page(catalogue, page * PAGE_SIZE, PAGE_SIZE);
      if pageMarkets == [] {
        EmptyPage(catalogue, page);
        break;
      }
      NextPage(catalogue, page);
      FilterAppend(Matches(query), FirstPages(catalogue, page), pageMarkets);
      matches := matches + Filter(Matches(query), pageMarkets);
      page := page + 1;
    }
  }

  // ---------- what the answer means ----------

  // The positions of the matches, in order.
  ghost predicate MatchesAt(window: seq<Market>, query: string, at: seq<nat>) {
    && (forall i, j :: 0 <= i < j < |at| ==> at[i] < at[j])
    && (forall k: nat :: k in at <==> k < |window| && Matches(query)(window[k]))
  }

  ghost predicate InWindow(window: seq<Market>, at: seq<nat>) {
    forall i :: 0 <= i < |at| ==> at[i] < |window|
  }

  function SummariesAt(window: seq<Market>, at: seq<nat>): seq<Summary>
    requires InWindow(window, at)
  {
    seq(|at|, i requires 0 <= i < |at| => Summarize(window[at[i]]))
  }

  // The result of ranking: all of them, by falling volume, ties in their first order.
  ghost predicate Ranking(summaries: seq<Summary>, ranked: seq<Summary>) {
    multiset(ranked) == multiset(summaries) && Sorted(ByVolume, ranked) && SameClasses(ByVolume, ranked, summaries)
  }

  // How many are kept of n: Python's xs[:limit].
  function Kept(n: nat, limit: int): nat {
    if limit >= 0 then Min(limit, n) else if n + limit >= 0 then n + limit else 0
  }

  // The exact top of the list: the first of a ranking, and none left out has more volume than any
  // returned.
  ghost predicate IsTop(summaries: seq<Summary>, limit: int, answer: seq<Summary>) {
    && |answer| == Kept(|summaries|, limit)
    && (exists ranked :: Ranking(summaries, ranked) && answer <= ranked)
    && multiset(answer) <= multiset(summaries)
    && forall a, o :: a in answer && o in multiset(summaries) - multiset(answer) ==> a.volume >= o.volume
  }

  /** The whole search. It fails exactly when the figures of some match cannot be loaded; otherwise
      its answer is the exact top of the matches among the first 500 open markets of the catalogue,
      each of them counted once. */
  method Search(catalogue: seq<Market>, query: string, limit: int) returns (r: Outcome<seq<Summary>>)
    ensures var window := Window(catalogue);
            r.ApiError? <==> exists k: nat :: k < |window| && Matches(query)(window[k]) && !Loadable(window[k])
    ensures var window := Window(catalogue);
            r.Ok? ==> exists at :: MatchesAt(window, query, at) && InWindow(window, at)
                                   && IsTop(SummariesAt(window, at), limit, r.value)
  {
    hide Summarize, Matches, Loadable, IsTop, Ranked, MatchesAt;
    var matches := CollectMatches(catalogue, query);
    ghost var at := EveryMatchCollectedOnce(catalogue, query);
    FoundMembers(catalogue, query);
    var enriched := EnrichMarkets(matches);
    match enriched
    case ApiError => r := ApiError;
    case Ok(summaries) =>
      assert summaries == SummariesAt(Window(catalogue), at);
      AnswerIsTop(summaries, limit);
      r := Ok(Limited(Ranked(summaries), limit));
  }

  lemma FoundMembers(catalogue: seq<Market>, query: string)
    ensures var window, found := Window(catalogue), Found(catalogue, query);
            (exists i :: 0 <= i < |found| && !Loadable(found[i]))
            <==> exists k: nat :: k < |window| && Matches(query)(window[k]) && !Loadable(window[k])
  {
    hide Loadable, Matches, Window;
    var window, found := Window(catalogue), Found(catalogue, query);
    FilterMembers(Matches(query), window);
    if i :| 0 <= i < |found| && !Loadable(found[i]) {
      assert found[i] in window;
    }
    if k: nat :| k < |window| && Matches(query)(window[k]) && !Loadable(window[k]) {
      assert window[k] in found;
    }
  }

  // The positions kept by a filter, in order.
  function PositionsOf<T>(p: T -> bool, xs: seq<T>): (ps: seq<nat>)
    ensures forall i :: 0 <= i < |ps| ==> ps[i] < |xs|
  {
    if xs == [] then []
    else
      var n := |xs| - 1;
      PositionsOf(p, xs[..n]) + if p(xs[n]) then [n] else []
  }

  // A filter keeps each accepted position exactly once and in order.
  lemma {:induction false} KeptInOrder<T>(p: T -> bool, xs: seq<T>)
    ensures var ps := PositionsOf(p, xs);
            && (forall i, j :: 0 <= i < j < |ps| ==> ps[i] < ps[j])
            && (forall k: nat :: k in ps <==> k < |xs| && p(xs[k]))
  {
    if xs != [] {
      var init := xs[..|xs| - 1];
      KeptInOrder(p, init);
      assert forall k: nat :: k < |init| ==> xs[k] == init[k];
    }
  }

  lemma {:induction false} KeptExactly<T>(p: T -> bool, xs: seq<T>)
    ensures var ps := PositionsOf(p, xs);
            Filter(p, xs) == seq(|ps|, i requires 0 <= i < |ps| => xs[ps[i]])
  {
    if xs != [] {
      var n := |xs| - 1;
      var init := xs[..n];
      KeptExactly(p, init);
      assert xs == init + [xs[n]];
      FilterAppend(p, init, [xs[n]]);
      assert [xs[n]][1..] == [];
      var ps := PositionsOf(p, init);
      assert Filter(p, init) == seq(|ps|, i requires 0 <= i < |ps| => xs[ps[i]]);
    }
  }

  /** The window of a search: the markets with status OPEN in catalogue order, 500 of them at most. */
  lemma WindowIs(catalogue: seq<Market>) returns (at: seq<nat>)
    ensures forall i, j :: 0 <= i < j < |at| ==> at[i] < at[j]
    ensures forall k: nat :: k in at <==> k < |catalogue| && catalogue[k].status == "OPEN"
    ensures |Window(catalogue)| == if |at| <= 500 then |at| else 500
    ensures forall i :: 0 <= i < |Window(catalogue)| ==> at[i] < |catalogue| && Window(catalogue)[i] == catalogue[at[i]]
  {
    at := PositionsOf(IsOpen(), catalogue);
    KeptInOrder(IsOpen(), catalogue);
    KeptExactly(IsOpen(), catalogue);
  }

  /** Each match among the first 500 open markets is collected exactly once, in catalogue order,
      and nothing else is. */
  lemma EveryMatchCollectedOnce(catalogue: seq<Market>, query: string) returns (at: seq<nat>)
    ensures MatchesAt(Window(catalogue), query, at) && InWindow(Window(catalogue), at)
    ensures Found(catalogue, query) == seq(|at|, i requires 0 <= i < |at| => Window(catalogue)[at[i]])
  {
    hide Matches, Window;
    at := PositionsOf(Matches(query), Window(catalogue));
    KeptInOrder(Matches(query), Window(catalogue));
    KeptExactly(Matches(query), Window(catalogue));
  }

  lemma VolumeIsPreorder()
    ensures Preorder(ByVolume)
  {
  }

  lemma RankedIsRanking(summaries: seq<Summary>)
    ensures Ranking(summaries, Ranked(summaries)) && |Ranked(summaries)| == |summaries|
  {
    hide ByVolume;
    var ranked := Ranked(summaries);
    VolumeIsPreorder();
    SortSorts(ByVolume, summaries);
    assert |ranked| == |multiset(ranked)| == |multiset(summaries)| == |summaries|;
    forall a: Summary
      ensures Filter(Like(ByVolume, a), ranked) == Filter(Like(ByVolume, a), summaries)
    {
      SortIsStable(ByVolume, summaries, a);
    }
  }

  /** The first part of a ranking is the exact top of the list, and the only list that is. */
  lemma AnswerIsTop(summaries: seq<Summary>, limit: int)
    ensures IsTop(summaries, limit, Limited(Ranked(summaries), limit))
    ensures forall answer :: IsTop(summaries, limit, answer) ==> answer == Limited(Ranked(summaries), limit)
  {
    hide Ranked, Ranking;
    var ranked, answer := Ranked(summaries), Limited(Ranked(summaries), limit);
    RankedIsRanking(summaries);
    FirstPart(summaries, ranked, |answer|);
    assert answer == ranked[..|answer|];
    forall other | IsTop(summaries, limit, other)
      ensures other == answer
    {
      var r :| Ranking(summaries, r) && other <= r;
      OnlyRanking(summaries, r);
    }
  }

  lemma OnlyRanking(summaries: seq<Summary>, ranked: seq<Summary>)
    requires Ranking(summaries, ranked)
    ensures ranked == Ranked(summaries)
  {
    hide ByVolume;
    VolumeIsPreorder();
    AnyStableSort(ByVolume, summaries, ranked);
  }

  lemma FirstPart(summaries: seq<Summary>, ranked: seq<Summary>, n: nat)
    requires Ranking(summaries, ranked) && n <= |ranked|
    ensures multiset(ranked[..n]) <= multiset(summaries)
    ensures forall a, o :: a in ranked[..n] && o in multiset(summaries) - multiset(ranked[..n]) ==> a.volume >= o.volume
  {
    hide SameClasses;
    assert ranked == ranked[..n] + ranked[n..];
    assert multiset(summaries) - multiset(ranked[..n]) == multiset(ranked[n..]);
    forall a, o | a in ranked[..n] && o in ranked[n..]
      ensures a.volume >= o.volume
    {
      var i :| 0 <= i < n && ranked[i] == a;
      var j :| n <= j < |ranked| && ranked[j] == o;
      assert ByVolume(ranked[i], ranked[j]);
    }
  }
}
