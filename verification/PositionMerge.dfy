/** Joining the local journal with the positions the exchange reports. */
module PositionMerge {
  import opened Text
  import opened StableSort
  import PositionJournal

  type Value = PositionJournal.Value

  // A journal record, with the fields the merge looks at. The token is whatever the file held.
  datatype Local = Local(id: string, market: string, question: string, outcome: string, token: Value,
                         source: string, status: string, quantity: string, notional: real)

  datatype Remote = Remote(id: Option<string>, market: Option<string>, token: Option<string>,
                           outcome: Option<string>, quantity: Option<string>, status: Option<string>)

  // Unrealised profit, absolute and in percent of what was paid.
  datatype Profit = Profit(usdt: real, percent: real)

  datatype View = View(id: string, market: string, question: string, outcome: string, source: string,
                       status: string, quantity: string, remoteQuantity: Option<string>,
                       mark: real, profit: Option<Profit>)

  /** What the merge asks about markets, and how the text of a quantity reads as a number of tokens. */
  datatype Lookups = Lookups(questionOf: string -> string, yesOf: string -> real, noOf: string -> real,
                             tokensOf: string -> real)

  // Python's `x or y` on optional text: absent and empty text both give way.
  function OrElse(x: Option<string>, y: string): string {
    if x.Some? && x.value != "" then x.value else y
  }

  // A remote without a token text carries none.
  predicate Carries(r: Remote, token: string) {
    token != "" && r.token == Some(token)
  }

  // The position of the last remote carrying this token, or the length.
  function LastAt(remotes: seq<Remote>, token: string): (k: nat)
    ensures k <= |remotes|
    ensures k < |remotes| ==> Carries(remotes[k], token)
    ensures forall j :: k < j < |remotes| ==> !Carries(remotes[j], token)
    ensures k == |remotes| ==> forall j :: 0 <= j < |remotes| ==> !Carries(remotes[j], token)
  {
    if remotes == [] then 0
    else
      var n := |remotes| - 1;
      if Carries(remotes[n], token) then n
      else
        var k := LastAt(remotes[..n], token);
        if k < n then k else |remotes|
  }

  function LastCarrying(remotes: seq<Remote>, token: string): Option<Remote> {
    var k := LastAt(remotes, token);
    if k < |remotes| then Some(remotes[k]) else None
  }

  // The remote that a local token finds: only text can be a key of the table.
  function LastFor(remotes: seq<Remote>, token: Value): Option<Remote> {
    if token.Str? then LastCarrying(remotes, token.text) else None
  }

  function RemoteByToken(remotes: seq<Remote>): map<string, Remote> {
    if remotes == [] then map[]
    else
      var r := remotes[|remotes| - 1];
      var before := RemoteByToken(remotes[..|remotes| - 1]);
      if r.token.Some? && r.token.value != "" then before[r.token.value := r] else before
  }

  lemma {:induction false} DictKeepsLast(remotes: seq<Remote>, token: string)
    ensures var table := RemoteByToken(remotes);
            LastCarrying(remotes, token) == if token in table then Some(table[token]) else None
  {
    if remotes != [] {
      DictKeepsLast(remotes[..|remotes| - 1], token);
    }
  }

  // table.get(token), for a token that can be looked up.
  function Find(table: map<string, Remote>, token: Value): Option<Remote> {
    if token.Str? && token.text in table then Some(table[token.text]) else None
  }

  lemma TableFindsLast(remotes: seq<Remote>, token: Value)
    ensures Find(RemoteByToken(remotes), token) == LastFor(remotes, token)
  {
    if token.Str? {
      DictKeepsLast(remotes, token.text);
    }
  }

  function Mark(w: Lookups, market: string, outcome: string): real {
    if Upper(outcome) == "YES" then w.yesOf(market) else w.noOf(market)
  }

  // The profit figures over exact numbers.
  function ProfitOf(tokens: real, mark: real, notional: real): Profit {
    var usdt := tokens * mark - notional;
    Profit(usdt, if notional == 0.0 then 0.0 else usdt / notional * 100.0)
  }

  // The quantity a local position is valued with.
  function Valued(l: Local, remote: Option<Remote>): string {
    if remote.Some? && remote.value.quantity.Some? then remote.value.quantity.value else l.quantity
  }

  function LocalView(w: Lookups, l: Local, remote: Option<Remote>): View {
    var mark := Mark(w, l.market, l.outcome);
    View(l.id, l.market, l.question, l.outcome, l.source,
         Upper(if remote.Some? then OrElse(remote.value.status, l.status) else l.status),
         l.quantity,
         if remote.Some? then remote.value.quantity else None,
         mark, Some(ProfitOf(w.tokensOf(Valued(l, remote)), mark, l.notional)))
  }

  function ExternalView(w: Lookups, r: Remote): View {
    var market, outcome := OrElse(r.market, ""), OrElse(r.outcome, "UNKNOWN");
    var quantity := OrElse(r.quantity, "0");
    View(OrElse(r.id, "external-" + Shown(r.market) + "-" + Shown(r.token)), market, w.questionOf(market),
         outcome, "external", Upper(OrElse(r.status, "OPEN")),
         quantity, Some(quantity), Mark(w, market, outcome), None)
  }

  // An f-string shows a missing value as None.
  function Shown(x: Option<string>): string {
    if x.Some? then x.value else "None"
  }

  function TokenValue(token: Option<string>): Value {
    if token.Some? then PositionJournal.Str(token.value) else PositionJournal.Null
  }

  // Some local position has this token; an absent token equals a null one.
  predicate Tracked(locals: seq<Local>, token: Option<string>) {
    exists i :: 0 <= i < |locals| && locals[i].token == TokenValue(token)
  }

  // A list or an object cannot be looked up.
  predicate Hashable(token: Value) {
    !token.Compound?
  }

  function Untracked(locals: seq<Local>): Remote -> bool {
    (r: Remote) => !Tracked(locals, r.token)
  }

  function LocalViews(w: Lookups, locals: seq<Local>, remotes: seq<Remote>): seq<View> {
    seq(|locals|, i requires 0 <= i < |locals| => LocalView(w, locals[i], LastFor(remotes, locals[i].token)))
  }

  function ExternalViews(w: Lookups, remotes: seq<Remote>): seq<View> {
    seq(|remotes|, i requires 0 <= i < |remotes| => ExternalView(w, remotes[i]))
  }

  function Merged(w: Lookups, locals: seq<Local>, remotes: seq<Remote>): seq<View> {
    LocalViews(w, locals, remotes) + ExternalViews(w, Filter(Untracked(locals), remotes))
  }

  /** The merge; it raises, before it lists anything, exactly when the token of some local position
      is a list or an object. */
  method MergePositions(w: Lookups, locals: seq<Local>, remotes: seq<Remote>) returns (r: Option<seq<View>>)
    ensures r == if exists i :: 0 <= i < |locals| && locals[i].token.Compound? then None
                 else Some(Merged(w, locals, remotes))
  {
    hide LocalView, RemoteByToken, Find, LastFor, ExternalViews;
    var remoteByToken := RemoteByToken(remotes);
    var views: seq<View> := [];
    for i := 0 to |locals|
      invariant forall j :: 0 <= j < i ==> Hashable(locals[j].token)
      invariant views == LocalViews(w, locals, remotes)[..i]
    {
      var token := locals[i].token;
      if !Hashable(token) {
        return None;
      }
      TableFindsLast(remotes, token);
      views := views + [LocalView(w, locals[i], Find(remoteByToken, token))];
    }
    assert views == LocalViews(w, locals, remotes);
    var external := ExternalsOf(w, locals, remotes);
    r := Some(views + external);
  }

  // The second loop: the remotes whose token no local position has.
  method ExternalsOf(w: Lookups, locals: seq<Local>, remotes: seq<Remote>) returns (views: seq<View>)
    ensures views == ExternalViews(w, Filter(Untracked(locals), remotes))
  {
    var trackedTokens := set i | 0 <= i < |locals| :: locals[i].token;
    views := [];
    for i := 0 to |remotes|
      invariant views == ExternalViews(w, Filter(Untracked(locals), remotes[..i]))
    {
      assert remotes[..i + 1] == remotes[..i] + [remotes[i]];
      FilterAppend(Untracked(locals), remotes[..i], [remotes[i]]);
      assert [remotes[i]][1..] == [];
      if TokenValue(remotes[i].token) in trackedTokens {
        continue;
      }
      views := views + [ExternalView(w, remotes[i])];
    }
    assert remotes[..|remotes|] == remotes;
  }

  // ---------- conservation ----------

  /** One view per local position, in journal order, and then one per untracked remote position, in
      the order reported; a local view keeps the local id, quantity and source. */
  lemma MergeKeepsEverything(w: Lookups, locals: seq<Local>, remotes: seq<Remote>)
    ensures var views, rest := Merged(w, locals, remotes), Filter(Untracked(locals), remotes);
            && |views| == |locals| + |rest|
            && (forall i :: 0 <= i < |locals| ==>
                  && views[i].id == locals[i].id && views[i].quantity == locals[i].quantity
                  && views[i].source == locals[i].source)
            && (forall i :: 0 <= i < |rest| ==> views[|locals| + i] == ExternalView(w, rest[i]))
            && (forall r :: r in rest <==> r in remotes && !Tracked(locals, r.token))
  {
    hide LocalView, ExternalView, LastFor, Untracked;
    UntrackedMembers(locals, remotes);
    forall i | 0 <= i < |locals|
      ensures var view := Merged(w, locals, remotes)[i];
              view.id == locals[i].id && view.quantity == locals[i].quantity && view.source == locals[i].source
    {
      LocalViewKeeps(w, locals[i], LastFor(remotes, locals[i].token));
    }
  }

  lemma UntrackedMembers(locals: seq<Local>, remotes: seq<Remote>)
    ensures forall r :: r in Filter(Untracked(locals), remotes) <==> r in remotes && !Tracked(locals, r.token)
  {
    hide Tracked, Filter;
    FilterMembers(Untracked(locals), remotes);
  }

  lemma LocalViewKeeps(w: Lookups, l: Local, remote: Option<Remote>)
    ensures var view := LocalView(w, l, remote); view.id == l.id && view.quantity == l.quantity && view.source == l.source
  {
  }

  lemma LastIs(remotes: seq<Remote>, token: string, k: nat)
    requires k < |remotes| && Carries(remotes[k], token)
    requires forall j :: k < j < |remotes| ==> !Carries(remotes[j], token)
    ensures LastAt(remotes, token) == k
  {
    hide LastAt;
  }

  /** A tracked token takes its remote quantity and its status from the last remote position that
      carries it, where that one has them, and stays local otherwise; its profit is that of the
      quantity it is valued with. */
  lemma TrackedTakesLastRemote(w: Lookups, locals: seq<Local>, remotes: seq<Remote>, i: nat, k: nat)
    requires i < |locals| && k < |remotes|
    requires locals[i].token.Str? && Carries(remotes[k], locals[i].token.text)
    requires forall j :: k < j < |remotes| ==> !Carries(remotes[j], locals[i].token.text)
    ensures var view, remote := Merged(w, locals, remotes)[i], remotes[k];
            var quantity := if remote.quantity.Some? then remote.quantity.value else locals[i].quantity;
            && view.remoteQuantity == remote.quantity
            && view.profit == Some(ProfitOf(w.tokensOf(quantity), view.mark, locals[i].notional))
            && (remote.status.Some? && remote.status.value != "" ==> view.status == Upper(remote.status.value))
            && (remote.status == None || remote.status.value == "" ==> view.status == Upper(locals[i].status))
  {
    LastIs(remotes, locals[i].token.text, k);
  }

  lemma UnreportedStaysLocal(w: Lookups, locals: seq<Local>, remotes: seq<Remote>, i: nat)
    requires i < |locals|
    requires locals[i].token.Str? ==> forall j :: 0 <= j < |remotes| ==> !Carries(remotes[j], locals[i].token.text)
    ensures var view := Merged(w, locals, remotes)[i];
            && view.remoteQuantity == None
            && view.profit == Some(ProfitOf(w.tokensOf(locals[i].quantity), view.mark, locals[i].notional))
            && view.status == Upper(locals[i].status)
  {
    assert locals[i].token.Str? ==> LastAt(remotes, locals[i].token.text) == |remotes|;
  }

  // ---------- what a view says ----------

  // Priced on the side of the outcome, in any letter case; everything that is not YES counts as NO.
  predicate Priced(w: Lookups, view: View) {
    view.mark == if SameText(view.outcome, "YES") then w.yesOf(view.market) else w.noOf(view.market)
  }

  // The profit of so many tokens at the mark of the view, for what was paid.
  predicate ProfitIs(view: View, tokens: real, notional: real) {
    && view.profit.Some? && view.profit.value.usdt + notional == tokens * view.mark
    && (notional != 0.0 ==> view.profit.value.percent * notional == view.profit.value.usdt * 100.0)
    && (notional == 0.0 ==> view.profit.value.percent == 0.0)
  }

  // Text that is there and not empty.
  predicate Holds(x: Option<string>, text: string) {
    x == Some(text) && text != ""
  }

  predicate Empty(x: Option<string>) {
    x == None || x == Some("")
  }

  // The text, or the fallback where there is none.
  predicate Reads(text: string, x: Option<string>, fallback: string) {
    Holds(x, text) || (Empty(x) && text == fallback)
  }

  // The text as an f-string shows it.
  predicate ShowsAs(x: Option<string>, text: string) {
    x == Some(text) || (x == None && text == "None")
  }

  // What an external view says about the reported position: no figures of our own.
  ghost predicate Reports(w: Lookups, view: View, r: Remote) {
    && view.source == "external" && view.profit == None && view.remoteQuantity == Some(view.quantity)
    && Reads(view.market, r.market, "") && Reads(view.outcome, r.outcome, "UNKNOWN")
    && Reads(view.quantity, r.quantity, "0")
    && view.question == w.questionOf(view.market)
    && (forall id :: Holds(r.id, id) ==> view.id == id)
    && (forall status :: Holds(r.status, status) ==> SameText(view.status, status))
    && (Empty(r.status) ==> view.status == "OPEN")
    && (Empty(r.id) ==>
          exists market, token ::
            ShowsAs(r.market, market) && ShowsAs(r.token, token) && view.id == "external-" + market + "-" + token)
  }

  lemma MarkIsPriced(w: Lookups, market: string, outcome: string)
    ensures Mark(w, market, outcome) == if SameText(outcome, "YES") then w.yesOf(market) else w.noOf(market)
  {
    assert Upper("YES") == "YES";
    CaseForms(outcome, "YES");
  }

  lemma ProfitMeans(tokens: real, mark: real, notional: real)
    ensures var p := ProfitOf(tokens, mark, notional);
            && p.usdt + notional == tokens * mark
            && (notional != 0.0 ==> p.percent * notional == p.usdt * 100.0)
            && (notional == 0.0 ==> p.percent == 0.0)
  {
    var usdt := tokens * mark - notional;
    assert notional != 0.0 ==> usdt / notional * 100.0 * notional == usdt / notional * notional * 100.0;
  }

  lemma ExternalReports(w: Lookups, r: Remote)
    ensures Reports(w, ExternalView(w, r), r) && Priced(w, ExternalView(w, r))
  {
    hide Mark, SameText, Upper;
    var view := ExternalView(w, r);
    MarkIsPriced(w, view.market, view.outcome);
    UpperSame(OrElse(r.status, "OPEN"));
    assert ShowsAs(r.market, Shown(r.market)) && ShowsAs(r.token, Shown(r.token));
    assert Upper("OPEN") == "OPEN";
  }

  lemma UpperSame(s: string)
    ensures SameText(Upper(s), s)
  {
  }

  /** Every view of the merge: a local one keeps its market, question and outcome, and its profit is that
      of the last reported quantity, or else its own; an external one says what was reported; both
      are priced on the side of their outcome. */
  lemma ViewsMean(w: Lookups, locals: seq<Local>, remotes: seq<Remote>, i: nat)
    requires i < |Merged(w, locals, remotes)|
    ensures Priced(w, Merged(w, locals, remotes)[i])
    ensures i < |locals| ==>
              var view, l, remote := Merged(w, locals, remotes)[i], locals[i], LastFor(remotes, locals[i].token);
              && view.market == l.market && view.question == l.question && view.outcome == l.outcome
              && ProfitIs(view, w.tokensOf(if view.remoteQuantity.Some? then view.remoteQuantity.value else l.quantity),
                          l.notional)
    ensures i >= |locals| ==>
              var rest := Filter(Untracked(locals), remotes);
              i - |locals| < |rest| && Reports(w, Merged(w, locals, remotes)[i], rest[i - |locals|])
  {
    hide Mark, ProfitOf, Upper, ExternalView, LastFor, Reports;
    if i < |locals| {
      var l := locals[i];
      MarkIsPriced(w, l.market, l.outcome);
      ProfitMeans(w.tokensOf(Valued(l, LastFor(remotes, l.token))), Mark(w, l.market, l.outcome), l.notional);
    } else {
      ExternalReports(w, Filter(Untracked(locals), remotes)[i - |locals|]);
    }
  }

  // ---------- what is lost ----------

  // Remote k shows up in the merge: listed as external, or the one its local position takes.
  predicate Represented(locals: seq<Local>, remotes: seq<Remote>, k: nat)
    requires k < |remotes|
  {
    || !Tracked(locals, remotes[k].token)
    || (remotes[k].token.Some? && LastAt(remotes, remotes[k].token.value) == k)
  }

  function Without(remotes: seq<Remote>, k: nat): seq<Remote>
    requires k < |remotes|
  {
    remotes[..k] + remotes[k + 1..]
  }

  /** A remote position that is not represented leaves no trace: the merge is the same without it. */
  lemma LostLeavesNoTrace(w: Lookups, locals: seq<Local>, remotes: seq<Remote>, k: nat)
    requires k < |remotes| && !Represented(locals, remotes, k)
    ensures Merged(w, locals, Without(remotes, k)) == Merged(w, locals, remotes)
  {
    var rest := Without(remotes, k);
    assert remotes == remotes[..k] + ([remotes[k]] + remotes[k + 1..]);
    FilterAppend(Untracked(locals), remotes[..k], [remotes[k]] + remotes[k + 1..]);
    FilterAppend(Untracked(locals), [remotes[k]], remotes[k + 1..]);
    FilterAppend(Untracked(locals), remotes[..k], remotes[k + 1..]);
    assert [remotes[k]][1..] == [];
    forall i | 0 <= i < |locals|
      ensures LastFor(rest, locals[i].token) == LastFor(remotes, locals[i].token)
    {
      if locals[i].token.Str? {
        LastWithout(remotes, locals[i].token.text, k);
      }
    }
    assert LocalViews(w, locals, rest) == LocalViews(w, locals, remotes);
  }

  lemma LastWithout(remotes: seq<Remote>, token: string, k: nat)
    requires k < |remotes| && LastAt(remotes, token) != k
    ensures LastCarrying(Without(remotes, k), token) == LastCarrying(remotes, token)
  {
    if LastAt(remotes, token) < |remotes| {
      LastStays(remotes, token, k);
    } else {
      NoneAppears(remotes, token, k);
    }
  }

  lemma LastStays(remotes: seq<Remote>, token: string, k: nat)
    requires k < |remotes| && LastAt(remotes, token) < |remotes| && LastAt(remotes, token) != k
    ensures LastCarrying(Without(remotes, k), token) == LastCarrying(remotes, token)
  {
    hide LastAt, Carries;
    var rest, m := Without(remotes, k), LastAt(remotes, token);
    var at := if m < k then m else m - 1;
    assert rest[at] == remotes[m];
    forall j | at < j < |rest|
      ensures !Carries(rest[j], token)
    {
      assert rest[j] == remotes[if j < k then j else j + 1];
    }
    LastIs(rest, token, at);
  }

  lemma NoneAppears(remotes: seq<Remote>, token: string, k: nat)
    requires k < |remotes| && LastAt(remotes, token) == |remotes|
    ensures LastAt(Without(remotes, k), token) == |Without(remotes, k)|
  {
    hide LastAt, Carries;
    var rest := Without(remotes, k);
    forall j | 0 <= j < |rest|
      ensures !Carries(rest[j], token)
    {
      assert rest[j] == remotes[if j < k then j else j + 1];
    }
  }

  /** No reported position is lost in the merge if and only if the tracked tokens among the reported
      ones are there, non-empty and pairwise distinct. */
  lemma NothingLostIff(locals: seq<Local>, remotes: seq<Remote>)
    ensures (forall k: nat :: k < |remotes| ==> Represented(locals, remotes, k))
            <==> && (forall k :: 0 <= k < |remotes| && Tracked(locals, remotes[k].token) ==>
                       remotes[k].token.Some? && remotes[k].token.value != "")
                 && (forall j, k :: 0 <= j < k < |remotes| && Tracked(locals, remotes[k].token) ==>
                       remotes[j].token != remotes[k].token)
  {
    hide LastAt, Tracked;
    forall k: nat | k < |remotes| && Tracked(locals, remotes[k].token)
      ensures Represented(locals, remotes, k)
              <==> && remotes[k].token.Some? && remotes[k].token.value != ""
                   && forall j :: k < j < |remotes| ==> remotes[j].token != remotes[k].token
    {
      var token := remotes[k].token;
      if token.Some? && token.value != "" && forall j :: k < j < |remotes| ==> remotes[j].token != token {
        LastIs(remotes, token.value, k);
      }
    }
  }

  lemma TrackedByOne(l: Local, token: Option<string>)
    requires l.token == TokenValue(token)
    ensures Tracked([l], token)
  {
    assert [l][0].token == TokenValue(token);
  }

  /** The first kind of loss: an empty token on both sides. */
  lemma EmptyTokenIsLost(l: Local, r: Remote)
    requires l.token == PositionJournal.Str("") && r.token == Some("")
    ensures !Represented([l], [r], 0)
  {
    TrackedByOne(l, r.token);
  }

  /** The second kind: no token on both sides. */
  lemma NullTokenIsLost(l: Local, r: Remote)
    requires l.token == PositionJournal.Null && r.token == None
    ensures !Represented([l], [r], 0)
  {
    TrackedByOne(l, r.token);
  }

  /** The third kind: of two reported positions with one tracked token only the later one is used. */
  lemma RepeatedTokenIsLost(l: Local, r1: Remote, r2: Remote)
    requires l.token.Str? && l.token.text != "" && r1.token == r2.token == Some(l.token.text)
    ensures !Represented([l], [r1, r2], 0) && Represented([l], [r1, r2], 1)
  {
    TrackedByOne(l, r1.token);
    LastIs([r1, r2], l.token.text, 1);
  }

  // ---------- the default listing ----------

  function Listed(): View -> bool {
    (v: View) => v.source != "external" && Upper(v.status) == "OPEN"
  }

  function ListPositions(w: Lookups, locals: seq<Local>, remotes: seq<Remote>, all: bool): seq<View> {
    var merged := Merged(w, locals, remotes);
    if all then merged else Filter(Listed(), merged)
  }

  lemma UpperTwice(s: string)
    ensures Upper(Upper(s)) == Upper(s)
  {
  }

  lemma {:induction false} NoneListed(views: seq<View>)
    requires forall i :: 0 <= i < |views| ==> views[i].source == "external"
    ensures Filter(Listed(), views) == []
  {
    if views != [] {
      NoneListed(views[1..]);
    }
  }

  /** The default listing is exactly the local views that are open and not external: untracked
      remote positions never appear in it, however many there are. */
  lemma DefaultListingIsLocal(w: Lookups, locals: seq<Local>, remotes: seq<Remote>)
    ensures ListPositions(w, locals, remotes, false) == Filter(Listed(), LocalViews(w, locals, remotes))
    ensures forall v :: v in ListPositions(w, locals, remotes, false)
              <==> v in LocalViews(w, locals, remotes) && v.source != "external" && v.status == "OPEN"
    ensures ListPositions(w, locals, remotes, true) == Merged(w, locals, remotes)
  {
    var external := ExternalViews(w, Filter(Untracked(locals), remotes));
    var local := LocalViews(w, locals, remotes);
    FilterAppend(Listed(), local, external);
    NoneListed(external);
    assert Filter(Listed(), local) + [] == Filter(Listed(), local);
    FilterMembers(Listed(), local);
    forall v | v in local
      ensures Upper(v.status) == v.status
    {
      var i :| 0 <= i < |locals| && local[i] == v;
      var remote := LastFor(remotes, locals[i].token);
      UpperTwice(if remote.Some? then OrElse(remote.value.status, locals[i].status) else locals[i].status);
    }
  }
}
