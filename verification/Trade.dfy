/** Buying through the SDK-backed wallet: the effects of one buy, in order, and of runs of buys. */
module Trade {
  import opened Text
  import opened PositionJournal
  import DecimalAmount
  import AmountText
  import Numerals

  datatype Order = Order(hash: string, status: string, fill: Option<string>)

  // What is asked for; the amount is the text that was typed.
  datatype Request = Request(market: string, outcome: string, typed: string, limit: bool)

  // The amount in wei, None when Decimal() raises.
  function AmountOf(q: Request): Option<nat> {
    DecimalAmount.ParseAmountToWei(AmountText.ReadDecimal(q.typed))
  }

  // The amount as a number for the journal, None when float() raises.
  function NotionalOf(q: Request): Option<real> {
    AmountText.ReadFloat(q.typed)
  }

  datatype MarketInfo = MarketInfo(question: string, feeBps: int)

  // An order ready to be sent: what it makes and takes, and its hash.
  datatype Signed = Signed(maker: nat, taker: nat, hash: string)

  /** What the world answers during one buy; None stands for a call that raises. `signed` covers
      pricing, building and signing the order; `polls(i)` is the answer to the i-th status query;
      `fault` is how writing the journal goes. Empty text stands for an absent hash or status. */
  datatype World = World(
    overlay: bool, balance: int, orchestrated: bool,
    market: Option<MarketInfo>, token: Option<string>, bookOk: bool, signed: Option<Signed>,
    created: Option<Order>, polls: nat -> Option<Order>, now: string, notes: Value, fault: Fault)

  datatype Effect =
    | ReadBalance
    | GetMarket
    | GetBook
    | CreateOrder(amount: nat)
    | GetOrder(hash: string)
    | Sleep
    | WriteJournal(record: LocalPosition)

  datatype TradeResult = TradeResult(
    market: string, outcome: string, strategy: string, orderHash: string, status: string,
    fill: Option<string>, token: string, maker: nat, taker: nat)

  datatype BuyError =
    | UnsupportedMode
    | NotNumeric
    | NotPositive
    | FundingRequired(shortfall: int)
    | CallFailed

  // A successful buy returns its result; `record` is what it stored in the journal.
  datatype Outcome = Bought(result: TradeResult, record: LocalPosition) | Failed(error: BuyError)

  const MAX_POLLS := 15

  // max(attempted - max(balance, 0), 0)
  function Shortfall(attempted: int, balance: int): int {
    var held := if balance >= 0 then balance else 0;
    if attempted - held >= 0 then attempted - held else 0
  }

  predicate Settled(o: Order) {
    Upper(o.status) == "FILLED" || Upper(o.status) == "OPEN"
  }

  // ---------- polling ----------

  datatype Polled = Polled(last: Order, effects: seq<Effect>) | PollFailed(effects: seq<Effect>)

  // Status queries from number i on, at most `left` of them, stopping at a settled answer.
  function Poll(polls: nat -> Option<Order>, hash: string, current: Order, i: nat, left: nat): Polled
    decreases left
  {
    if left == 0 then Polled(current, [])
    else
      match polls(i)
      case None => PollFailed([GetOrder(hash)])
      case Some(o) =>
        if Settled(o) then Polled(o, [GetOrder(hash)])
        else After([GetOrder(hash), Sleep], Poll(polls, hash, o, i + 1, left - 1))
  }

  function After(effects: seq<Effect>, p: Polled): Polled {
    match p
    case Polled(last, more) => Polled(last, effects + more)
    case PollFailed(more) => PollFailed(effects + more)
  }

  function PollAll(w: World, hash: string, created: Order): Polled {
    Poll(w.polls, hash, created, 0, if hash == "" then 0 else MAX_POLLS)
  }

  // ---------- one buy ----------

  function StatusOf(polled: Order, created: Order): string {
    Upper(if polled.status != "" then polled.status else if created.status != "" then created.status else "OPEN")
  }

  function Optional(s: Option<string>): Value {
    if s.Some? then Str(s.value) else Null
  }

  function RecordOf(q: Request, w: World, hash: string, polled: Order, created: Order): LocalPosition
    requires w.market.Some? && w.token.Some? && w.signed.Some? && NotionalOf(q).Some?
  {
    var maker, taker := w.signed.value.maker, w.signed.value.taker;
    LocalPosition(
      Str(PositionId(q.market, Lower(Upper(q.outcome)))), Str(q.market), Str(w.market.value.question),
      Str(Upper(q.outcome)), Str(w.token.value), Str("BUY"), Str(if q.limit then "LIMIT" else "MARKET"),
      Str(w.now), Number(if taker > 0 then maker as real / taker as real else 0.0),
      Str(NatText(taker)), Number(NotionalOf(q).value), Str(hash), Str(StatusOf(polled, created)),
      Optional(polled.fill), Number(w.market.value.feeBps as real), Str("tracked"), w.notes, Str("OPEN"))
  }

  function ResultOf(q: Request, w: World, hash: string, polled: Order, created: Order): TradeResult
    requires w.token.Some? && w.signed.Some?
  {
    TradeResult(q.market, Upper(q.outcome), if q.limit then "LIMIT" else "MARKET", hash,
                StatusOf(polled, created), polled.fill, w.token.value, w.signed.value.maker, w.signed.value.taker)
  }

  function HashOf(w: World): string
    requires w.created.Some? && w.signed.Some?
  {
    if w.created.value.hash != "" then w.created.value.hash else w.signed.value.hash
  }

  // The effects up to the order book, and up to the order.
  function Lookups(q: Request): seq<Effect> {
    if q.limit then [GetMarket] else [GetMarket, GetBook]
  }

  function Placed(q: Request, amount: nat): seq<Effect> {
    Lookups(q) + [CreateOrder(amount)]
  }

  // The effects and the outcome from the market lookup on.
  function Ordering(q: Request, w: World, amount: nat): (seq<Effect>, Outcome) {
    if w.market == None || w.token == None then ([GetMarket], Failed(CallFailed))
    else if (!q.limit && !w.bookOk) || w.signed == None then (Lookups(q), Failed(CallFailed))
    else if w.created == None then (Placed(q, amount), Failed(CallFailed))
    else
      var created, hash := w.created.value, HashOf(w);
      match PollAll(w, hash, created)
      case PollFailed(effects) => (Placed(q, amount) + effects, Failed(CallFailed))
      case Polled(last, effects) =>
        Recording(q, w, Placed(q, amount) + effects, hash, last, created)
  }

  // The end of a buy: the record is written and the result returned, unless reading the amount again
  // or writing the record raises.
  function Recording(q: Request, w: World, effects: seq<Effect>, hash: string, last: Order, created: Order)
    : (seq<Effect>, Outcome)
    requires w.market.Some? && w.token.Some? && w.signed.Some?
  {
    if NotionalOf(q) == None || w.fault != NoFault then (effects, Failed(CallFailed))
    else
      var record := RecordOf(q, w, hash, last, created);
      (effects + [WriteJournal(record)], Bought(ResultOf(q, w, hash, last, created), record))
  }

  function Buying(mandated: bool, q: Request, w: World): (seq<Effect>, Outcome) {
    if mandated then ([], Failed(UnsupportedMode))
    else
      match AmountOf(q)
      case None => ([], Failed(NotNumeric))
      case Some(amount) =>
        if amount == 0 then ([], Failed(NotPositive))
        else if w.overlay && w.balance < amount then
          ([ReadBalance],
           if w.orchestrated then Failed(FundingRequired(Shortfall(amount, w.balance))) else Failed(CallFailed))
        else
          var (effects, outcome) := Ordering(q, w, amount);
          ((if w.overlay then [ReadBalance] else []) + effects, outcome)
  }

  class TradeService {
    const mandated: bool
    const storage: PositionStorage
    var trace: seq<Effect>

    constructor (mandated: bool, storage: PositionStorage)
      ensures this.mandated == mandated && this.storage == storage && trace == []
    {
      this.mandated, this.storage, trace := mandated, storage, [];
    }

    /** One buy: its effects and outcome are those of Buying; a buy that succeeds upserts one record
        into the journal, any other leaves the journal as it was. */
    method Buy(q: Request, w: World) returns (r: Outcome)
      modifies this, storage
      ensures trace == old(trace) + Buying(mandated, q, w).0 && r == Buying(mandated, q, w).1
      ensures storage.ListPositions() == WrittenBy(old(storage.ListPositions()), Buying(mandated, q, w).1)
    {
      hide Ordering, AmountOf;
      if mandated {
        return Failed(UnsupportedMode);
      }
      if AmountOf(q) == None {
        return Failed(NotNumeric);
      }
      var amount := AmountOf(q).value;
      if amount <= 0 {
        return Failed(NotPositive);
      }
      if w.overlay {
        trace := trace + [ReadBalance];
        if w.balance < amount {
          return if w.orchestrated then Failed(FundingRequired(Shortfall(amount, w.balance))) else Failed(CallFailed);
        }
      }
      r := PlaceOrder(q, w, amount);
    }

    method PlaceOrder(q: Request, w: World, amount: nat) returns (r: Outcome)
      modifies this, storage
      ensures trace == old(trace) + Ordering(q, w, amount).0 && r == Ordering(q, w, amount).1
      ensures storage.ListPositions() == WrittenBy(old(storage.ListPositions()), Ordering(q, w, amount).1)
    {
      hide RecordOf, ResultOf, PollAll, Upserted, NotionalOf;
      trace := trace + [GetMarket];
      if w.market == None || w.token == None {
        return Failed(CallFailed);
      }
      if !q.limit {
        trace := trace + [GetBook];
      }
      assert trace == old(trace) + Lookups(q);
      if (!q.limit && !w.bookOk) || w.signed == None {
        return Failed(CallFailed);
      }
      trace := trace + [CreateOrder(amount)];
      assert trace == old(trace) + Placed(q, amount);
      if w.created == None {
        return Failed(CallFailed);
      }
      var created, hash := w.created.value, HashOf(w);
      var polled := PollStatus(w, hash, created);
      trace := trace + polled.effects;
      assert trace == old(trace) + (Placed(q, amount) + polled.effects);
      if polled.PollFailed? {
        return Failed(CallFailed);
      }
      if NotionalOf(q) == None {
        return Failed(CallFailed);
      }
      var record := RecordOf(q, w, hash, polled.last, created);
      var stored := PersistLocalPosition(record, w.fault);
      r := if stored then Bought(ResultOf(q, w, hash, polled.last, created), record) else Failed(CallFailed);
    }

    /** One record is upserted, or writing raises and the journal stays as it was. */
    method PersistLocalPosition(record: LocalPosition, fault: Fault) returns (ok: bool)
      modifies this, storage
      ensures ok <==> fault == NoFault
      ensures trace == old(trace) + if ok then [WriteJournal(record)] else []
      ensures storage.ListPositions()
              == if ok then Upserted(old(storage.ListPositions()), record) else old(storage.ListPositions())
    {
      ok := storage.Upsert(record, fault);
      if ok {
        trace := trace + [WriteJournal(record)];
      }
    }

    // At most fifteen status queries, two seconds apart, until the order is filled or open.
    method PollStatus(w: World, hash: string, created: Order) returns (p: Polled)
      ensures p == PollAll(w, hash, created)
    {
      hide Poll, After, Settled;
      var polled := created;
      var effects: seq<Effect> := [];
      if hash == "" {
        PollStops(w.polls, hash, created, 0, effects);
        return Polled(polled, effects);
      }
      PollStarts(w.polls, hash, created);
      for i := 0 to MAX_POLLS
        invariant PollAll(w, hash, created) == After(effects, Poll(w.polls, hash, polled, i, MAX_POLLS - i))
      {
        PollOnce(w.polls, hash, polled, i, MAX_POLLS - i, effects);
        effects := effects + [GetOrder(hash)];
        if w.polls(i) == None {
          return PollFailed(effects);
        }
        polled := w.polls(i).value;
        if Settled(polled) {
          return Polled(polled, effects);
        }
        effects := effects + [Sleep];
      }
      PollStops(w.polls, hash, polled, MAX_POLLS, effects);
      p := Polled(polled, effects);
    }
  }

  lemma PollStarts(polls: nat -> Option<Order>, hash: string, current: Order)
    ensures After([], Poll(polls, hash, current, 0, MAX_POLLS)) == Poll(polls, hash, current, 0, MAX_POLLS)
  {
    var p := Poll(polls, hash, current, 0, MAX_POLLS);
    assert [] + p.effects == p.effects;
  }

  lemma PollStops(polls: nat -> Option<Order>, hash: string, current: Order, i: nat, before: seq<Effect>)
    ensures Poll(polls, hash, current, i, 0) == Polled(current, [])
    ensures After(before, Poll(polls, hash, current, i, 0)) == Polled(current, before)
  {
    assert before + [] == before;
  }

  // One status query, and the sleep after an unsettled answer.
  lemma PollOnce(polls: nat -> Option<Order>, hash: string, current: Order, i: nat, left: nat, before: seq<Effect>)
    requires left > 0
    ensures After(before, Poll(polls, hash, current, i, left))
            == if polls(i) == None then PollFailed(before + [GetOrder(hash)])
               else if Settled(polls(i).value) then Polled(polls(i).value, before + [GetOrder(hash)])
               else After(before + [GetOrder(hash)] + [Sleep], Poll(polls, hash, polls(i).value, i + 1, left - 1))
  {
    hide Settled;
    if polls(i).Some? && !Settled(polls(i).value) {
      var rest := Poll(polls, hash, polls(i).value, i + 1, left - 1);
      assert before + ([GetOrder(hash), Sleep] + rest.effects) == before + [GetOrder(hash)] + [Sleep] + rest.effects;
    }
  }

  // The journal after a buy: a successful one upserts its record, any other writes nothing.
  function WrittenBy(js: seq<LocalPosition>, r: Outcome): seq<LocalPosition> {
    match r
    case Bought(_, record) => Upserted(js, record)
    case Failed(_) => js
  }

  // ---------- what one buy can do ----------

  function Count(p: Effect -> bool, effects: seq<Effect>): nat {
    if effects == [] then 0
    else Count(p, effects[..|effects| - 1]) + if p(effects[|effects| - 1]) then 1 else 0
  }

  function IsOrder(): Effect -> bool { (e: Effect) => e.CreateOrder? }

  function IsPoll(): Effect -> bool { (e: Effect) => e.GetOrder? }

  function IsWrite(): Effect -> bool { (e: Effect) => e.WriteJournal? }

  lemma {:induction false} CountAppend(p: Effect -> bool, a: seq<Effect>, b: seq<Effect>)
    ensures Count(p, a + b) == Count(p, a) + Count(p, b)
  {
    if b == [] {
      assert a + b == a;
    } else {
      assert (a + b)[..|a + b| - 1] == a + b[..|b| - 1];
      CountAppend(p, a, b[..|b| - 1]);
    }
  }

  lemma CountOne(p: Effect -> bool, e: Effect)
    ensures Count(p, [e]) == if p(e) then 1 else 0
  {
    assert [e][..0] == [];
  }

  lemma {:induction false} PollCounts(polls: nat -> Option<Order>, hash: string, current: Order, i: nat, left: nat)
    ensures var es := Poll(polls, hash, current, i, left).effects;
            Count(IsPoll(), es) <= left && Count(IsOrder(), es) == 0 && Count(IsWrite(), es) == 0
    decreases left
  {
    if left > 0 {
      var get := [GetOrder(hash)];
      CountOne(IsPoll(), GetOrder(hash));
      CountOne(IsOrder(), GetOrder(hash));
      CountOne(IsWrite(), GetOrder(hash));
      if polls(i).Some? && !Settled(polls(i).value) {
        PollCounts(polls, hash, polls(i).value, i + 1, left - 1);
        var more := Poll(polls, hash, polls(i).value, i + 1, left - 1).effects;
        assert [GetOrder(hash), Sleep] == get + [Sleep];
        forall p | p == IsPoll() || p == IsOrder() || p == IsWrite()
          ensures Count(p, [GetOrder(hash), Sleep] + more) == Count(p, get) + Count(p, more)
        {
          CountOne(p, Sleep);
          CountAppend(p, get, [Sleep]);
          CountAppend(p, get + [Sleep], more);
        }
      }
    }
  }

  lemma CountsAppend(a: seq<Effect>, b: seq<Effect>)
    ensures Count(IsOrder(), a + b) == Count(IsOrder(), a) + Count(IsOrder(), b)
    ensures Count(IsPoll(), a + b) == Count(IsPoll(), a) + Count(IsPoll(), b)
    ensures Count(IsWrite(), a + b) == Count(IsWrite(), a) + Count(IsWrite(), b)
  {
    CountAppend(IsOrder(), a, b);
    CountAppend(IsPoll(), a, b);
    CountAppend(IsWrite(), a, b);
  }

  lemma CountsOne(e: Effect)
    ensures Count(IsOrder(), [e]) == (if e.CreateOrder? then 1 else 0)
    ensures Count(IsPoll(), [e]) == (if e.GetOrder? then 1 else 0)
    ensures Count(IsWrite(), [e]) == (if e.WriteJournal? then 1 else 0)
  {
    CountOne(IsOrder(), e);
    CountOne(IsPoll(), e);
    CountOne(IsWrite(), e);
  }

  lemma LookupsCount(q: Request)
    ensures Count(IsOrder(), Lookups(q)) == Count(IsPoll(), Lookups(q)) == Count(IsWrite(), Lookups(q)) == 0
  {
    CountsOne(GetMarket);
    CountsOne(GetBook);
    CountsAppend([GetMarket], [GetBook]);
    assert [GetMarket] + [GetBook] == [GetMarket, GetBook];
  }

  // The stored record says what the returned result says.
  predicate RecordMatches(record: LocalPosition, result: TradeResult) {
    && record.positionId == Str(PositionId(result.market, Lower(result.outcome)))
    && record.marketId == Str(result.market) && record.outcomeName == Str(result.outcome)
    && record.strategy == Str(result.strategy) && record.orderHash == Str(result.orderHash)
    && record.orderStatus == Str(result.status)
    && record.fillAmount == (match result.fill case None => Null case Some(amount) => Str(amount))
    && record.tokenId == Str(result.token) && record.quantity == Str(NatText(result.taker))
  }

  // Everything before the order call goes through.
  predicate ReachesOrder(mandated: bool, q: Request, w: World) {
    && !mandated && AmountOf(q).Some? && AmountOf(q).value > 0 && (w.overlay ==> w.balance >= AmountOf(q).value)
    && w.market.Some? && w.token.Some? && (q.limit || w.bookOk) && w.signed.Some?
  }

  // Status query n is the first that raises, after unsettled answers only.
  predicate RaisesAt(polls: nat -> Option<Order>, i: nat, n: nat) {
    n >= i && polls(n) == None && forall j: nat :: i <= j < n ==> polls(j).Some? && !Settled(polls(j).value)
  }

  // One of the `left` status queries from number i on raises, after unsettled answers only.
  predicate RaisesWithin(polls: nat -> Option<Order>, i: nat, left: nat) {
    exists n: nat :: n < i + left && RaisesAt(polls, i, n)
  }

  lemma {:induction false} PollFailsIff(polls: nat -> Option<Order>, hash: string, current: Order, i: nat, left: nat)
    ensures Poll(polls, hash, current, i, left).PollFailed? <==> RaisesWithin(polls, i, left)
    decreases left
  {
    if left > 0 {
      if polls(i) == None {
        assert RaisesAt(polls, i, i);
      } else if !Settled(polls(i).value) {
        PollFailsIff(polls, hash, polls(i).value, i + 1, left - 1);
        if RaisesWithin(polls, i + 1, left - 1) {
          var n: nat :| n < i + 1 + (left - 1) && RaisesAt(polls, i + 1, n);
          assert RaisesAt(polls, i, n);
        }
        if RaisesWithin(polls, i, left) {
          var n: nat :| n < i + left && RaisesAt(polls, i, n);
          assert RaisesAt(polls, i + 1, n);
        }
      }
    }
  }

  // The order exists, or may exist, but its record is never written.
  predicate LosesRecord(q: Request, w: World)
    requires w.signed.Some?
  {
    || w.created == None
    || (HashOf(w) != "" && RaisesWithin(w.polls, 0, MAX_POLLS))
    || NotionalOf(q) == None || w.fault != NoFault
  }

  lemma PollAllFailsIff(w: World, hash: string, created: Order)
    ensures PollAll(w, hash, created).PollFailed?
            <==> hash != "" && RaisesWithin(w.polls, 0, MAX_POLLS)
  {
    PollFailsIff(w.polls, hash, created, 0, MAX_POLLS);
  }

  // What polling adds to the effects: status queries only, and not too many.
  lemma PollAllCounts(w: World, hash: string, created: Order)
    ensures var es := PollAll(w, hash, created).effects;
            Count(IsPoll(), es) <= MAX_POLLS && Count(IsOrder(), es) == 0 && Count(IsWrite(), es) == 0
  {
    PollCounts(w.polls, hash, created, 0, if hash == "" then 0 else MAX_POLLS);
  }

  // What the effects of a buy count to, given whether the order was reached.
  ghost predicate Shape(es: seq<Effect>, out: Outcome, orders: nat) {
    && Count(IsOrder(), es) == orders && Count(IsPoll(), es) <= MAX_POLLS
    && Count(IsWrite(), es) == (if out.Bought? then 1 else 0)
    && (out.Bought? ==> orders == 1 && es[|es| - 1] == WriteJournal(out.record) && RecordMatches(out.record, out.result))
  }

  lemma PlacedCounts(q: Request, amount: nat)
    ensures Count(IsOrder(), Placed(q, amount)) == 1
    ensures Count(IsPoll(), Placed(q, amount)) == 0 && Count(IsWrite(), Placed(q, amount)) == 0
  {
    LookupsCount(q);
    CountsOne(CreateOrder(amount));
    CountsAppend(Lookups(q), [CreateOrder(amount)]);
  }

  lemma RecordingShape(q: Request, w: World, effects: seq<Effect>, hash: string, last: Order, created: Order)
    requires w.market.Some? && w.token.Some? && w.signed.Some?
    requires Shape(effects, Failed(CallFailed), 1)
    ensures var (es, out) := Recording(q, w, effects, hash, last, created);
            Shape(es, out, 1) && (out.Bought? <==> NotionalOf(q).Some? && w.fault == NoFault)
  {
    hide NotionalOf, Count;
    if NotionalOf(q).Some? {
      var write := WriteJournal(RecordOf(q, w, hash, last, created));
      CountsOne(write);
      CountsAppend(effects, [write]);
    }
  }

  lemma OrderingShape(q: Request, w: World, amount: nat)
    ensures var (es, out) := Ordering(q, w, amount);
            var reached := w.market.Some? && w.token.Some? && (q.limit || w.bookOk) && w.signed.Some?;
            && Shape(es, out, if reached then 1 else 0)
            && (out.Bought? <==> reached && !LosesRecord(q, w))
  {
    hide Count, Poll, RecordOf, ResultOf, Lookups, NotionalOf;
    if w.market.Some? && w.token.Some? && (q.limit || w.bookOk) && w.signed.Some? {
      PlacedCounts(q, amount);
      if w.created.Some? {
        PolledShape(q, w, amount);
      }
    } else {
      LookupsCount(q);
      CountsOne(GetMarket);
    }
  }

  lemma PolledShape(q: Request, w: World, amount: nat)
    requires w.market.Some? && w.token.Some? && (q.limit || w.bookOk) && w.signed.Some? && w.created.Some?
    ensures var (es, out) := Ordering(q, w, amount);
            Shape(es, out, 1) && (out.Bought? <==> !LosesRecord(q, w))
  {
    hide Count, Poll, PollAll, RecordOf, ResultOf, Placed, NotionalOf;
    var created, hash := w.created.value, HashOf(w);
    var polled := PollAll(w, hash, created);
    PollAllFailsIff(w, hash, created);
    PollAllCounts(w, hash, created);
    PlacedCounts(q, amount);
    CountsAppend(Placed(q, amount), polled.effects);
    if polled.Polled? {
      RecordingShape(q, w, Placed(q, amount) + polled.effects, hash, polled.last, created);
    }
  }

  /** One buy makes at most one order and fifteen status queries; it writes the journal exactly when
      it returns a result, then as its last effect, after exactly one order, with a record that says
      what the result says. An order is placed exactly when everything before it goes through: for a
      positive amount, and in overlay mode only when the balance covers it. */
  lemma BuyShape(mandated: bool, q: Request, w: World)
    ensures var (es, out) := Buying(mandated, q, w);
            Shape(es, out, if ReachesOrder(mandated, q, w) then 1 else 0)
  {
    BuyOutcome(mandated, q, w);
  }

  lemma BuyOutcome(mandated: bool, q: Request, w: World)
    ensures var (es, out) := Buying(mandated, q, w);
            && Shape(es, out, if ReachesOrder(mandated, q, w) then 1 else 0)
            && (out.Bought? <==> ReachesOrder(mandated, q, w) && !LosesRecord(q, w))
  {
    hide Ordering, LosesRecord, RecordMatches, AmountOf;
    CountsOne(ReadBalance);
    if !mandated && AmountOf(q).Some? && AmountOf(q).value > 0 && !(w.overlay && w.balance < AmountOf(q).value) {
      var amount := AmountOf(q).value;
      OrderingShape(q, w, amount);
      CountsAppend(if w.overlay then [ReadBalance] else [], Ordering(q, w, amount).0);
    }
  }

  /** A buy calls for an order without leaving a journal record if and only if everything before the
      call goes through and then the call itself raises, or the order has a hash and one of the first
      fifteen status queries raises after unsettled answers only, or the typed amount is one that
      only Decimal() reads, or writing the journal raises. */
  lemma UnrecordedOrderIff(mandated: bool, q: Request, w: World)
    ensures var es := Buying(mandated, q, w).0;
            Count(IsOrder(), es) == 1 && Count(IsWrite(), es) == 0
            <==> && ReachesOrder(mandated, q, w)
                 && (w.created == None
                     || (HashOf(w) != "" && RaisesWithin(w.polls, 0, MAX_POLLS))
                     || AmountText.FloatRejects(q.typed)
                     || w.fault != NoFault)
  {
    hide Buying, Count, AmountText.ReadDecimal, AmountText.ReadFloat, AmountText.FloatRejects;
    BuyOutcome(mandated, q, w);
    if AmountOf(q).Some? {
      AmountText.FloatRejectsIff(q.typed);
    }
  }

  /** No call raises and no write fails, and still the order is not recorded: the amount was typed
      with two underscores between its digits. */
  lemma UnderscoresLoseRecord(q: Request, w: World, a: string, b: string)
    requires a != "" && b != "" && AllDigits(a) && AllDigits(b)
    requires q.typed == a + "__" + b && ReachesOrder(false, q, w) && w.fault == NoFault
    ensures var es := Buying(false, q, w).0; Count(IsOrder(), es) == 1 && Count(IsWrite(), es) == 0
  {
    hide Buying, Count, ReachesOrder, AmountText.ReadDecimal, AmountText.ReadFloat;
    AmountText.DoubledUnderscore(a, b);
    BuyOutcome(false, q, w);
  }

  // ---------- what a successful buy is ----------

  // An answer that ends the polling, in any letter case.
  predicate FilledOrOpen(o: Order) {
    SameText(o.status, "FILLED") || SameText(o.status, "OPEN")
  }

  lemma SettledIff(o: Order)
    ensures Settled(o) <==> FilledOrOpen(o)
  {
    assert Upper("FILLED") == "FILLED" && Upper("OPEN") == "OPEN";
    CaseForms(o.status, "FILLED");
    CaseForms(o.status, "OPEN");
  }

  // Answers i to n - 1 arrived; only the last one may be settled, and it is unless n is the limit.
  predicate AskedUpTo(polls: nat -> Option<Order>, i: nat, n: nat, limit: nat) {
    && i < n <= limit
    && (forall j: nat :: i <= j < n ==> polls(j).Some?)
    && (forall j: nat :: i <= j < n - 1 ==> !FilledOrOpen(polls(j).value))
    && (n == limit || FilledOrOpen(polls(n - 1).value))
  }

  // n status queries, with a pause after each but a last one that settled.
  function Rounds(hash: string, n: nat, settled: bool): seq<Effect>
    requires n > 0
  {
    if n == 1 then if settled then [GetOrder(hash)] else [GetOrder(hash), Sleep]
    else [GetOrder(hash), Sleep] + Rounds(hash, n - 1, settled)
  }

  lemma {:induction false} PollMeans(polls: nat -> Option<Order>, hash: string, current: Order, i: nat, left: nat)
    returns (n: nat)
    requires left > 0 && Poll(polls, hash, current, i, left).Polled?
    ensures AskedUpTo(polls, i, n, i + left)
    ensures Poll(polls, hash, current, i, left)
            == Polled(polls(n - 1).value, Rounds(hash, n - i, FilledOrOpen(polls(n - 1).value)))
    decreases left
  {
    hide Settled, FilledOrOpen;
    var o := polls(i).value;
    SettledIff(o);
    n := i + 1;
    if !Settled(o) {
      if left > 1 {
        n := PollMeans(polls, hash, o, i + 1, left - 1);
      } else {
        assert Poll(polls, hash, o, i + 1, 0) == Polled(o, []);
        assert [GetOrder(hash), Sleep] + [] == [GetOrder(hash), Sleep];
      }
    }
  }

  // The status kept: the one of the last answer, else the one the order was created with, else OPEN.
  predicate StatusKept(status: string, last: Order, created: Order) {
    && (last.status != "" ==> SameText(status, last.status))
    && (last.status == "" && created.status != "" ==> SameText(status, created.status))
    && (last.status == "" && created.status == "" ==> status == "OPEN")
    && forall i :: 0 <= i < |status| ==> !('a' <= status[i] <= 'z')
  }

  lemma StatusIsKept(last: Order, created: Order)
    ensures StatusKept(StatusOf(last, created), last, created)
  {
    var s := if last.status != "" then last.status else if created.status != "" then created.status else "OPEN";
    CaseForms(s, s);
    UpperSame(s);
    assert Upper("OPEN") == "OPEN";
  }

  lemma UpperSame(s: string)
    ensures SameText(Upper(s), s) && SameText(Lower(Upper(s)), s)
  {
  }

  // The last order seen and the polling in between: none without a hash.
  ghost predicate SettledBy(w: World, hash: string, last: Order, polling: seq<Effect>)
    requires w.created.Some?
  {
    if hash == "" then last == w.created.value && polling == []
    else
      exists n: nat :: AskedUpTo(w.polls, 0, n, 15) && last == w.polls(n - 1).value
                  && polling == Rounds(hash, n, FilledOrOpen(last))
  }

  lemma PollingSettles(w: World, hash: string)
    requires w.created.Some? && PollAll(w, hash, w.created.value).Polled?
    ensures var p := PollAll(w, hash, w.created.value); SettledBy(w, hash, p.last, p.effects)
  {
    hide AskedUpTo, Rounds, Poll, FilledOrOpen;
    if hash != "" {
      var n := PollMeans(w.polls, hash, w.created.value, 0, MAX_POLLS);
    } else {
      PollStops(w.polls, hash, w.created.value, 0, []);
    }
  }

  // What a result says about the request and the order that was signed.
  predicate ResultFits(r: TradeResult, q: Request, w: World)
    requires w.token.Some? && w.signed.Some? && w.created.Some?
  {
    && r.market == q.market && SameText(r.outcome, q.outcome) && r.strategy == (if q.limit then "LIMIT" else "MARKET")
    && r.token == w.token.value && r.maker == w.signed.value.maker && r.taker == w.signed.value.taker
    && (w.created.value.hash != "" ==> r.orderHash == w.created.value.hash)
    && (w.created.value.hash == "" ==> r.orderHash == w.signed.value.hash)
  }

  // What a record says beyond what the result says.
  predicate RecordFits(p: LocalPosition, q: Request, w: World)
    requires w.market.Some? && w.signed.Some?
  {
    var maker, taker := w.signed.value.maker as real, w.signed.value.taker as real;
    && p.question == Str(w.market.value.question) && p.feeRateBps == Number(w.market.value.feeBps as real)
    && p.side == Str("BUY") && p.source == Str("tracked") && p.status == Str("OPEN")
    && p.entryTime == Str(w.now) && p.notes == w.notes
    && p.entryPrice.Number? && (if taker == 0.0 then p.entryPrice.x == 0.0 else p.entryPrice.x * taker == maker)
  }

  lemma RecordFitsOrder(q: Request, w: World, hash: string, last: Order, created: Order)
    requires w.market.Some? && w.token.Some? && w.signed.Some? && NotionalOf(q).Some?
    ensures RecordFits(RecordOf(q, w, hash, last, created), q, w)
    ensures RecordOf(q, w, hash, last, created).notionalUsdt == Number(NotionalOf(q).value)
  {
    hide AmountText.ReadFloat, StatusOf;
  }

  /** Everything about a successful buy, over what was asked and what the world answered: the calls made
      and the order for the typed amount, the polling until the first filled or open answer, the result,
      and a journal that reads it back under the position id. */
  ghost predicate BuyDone(q: Request, w: World, es: seq<Effect>, r: TradeResult, p: LocalPosition) {
    && w.market.Some? && w.token.Some? && w.signed.Some? && w.created.Some?
    && AmountOf(q).Some? && NotionalOf(q).Some?
    && ResultFits(r, q, w) && RecordFits(p, q, w) && RecordMatches(p, r)
    && p.notionalUsdt == Number(NotionalOf(q).value)
    && exists last, polling ::
         && SettledBy(w, r.orderHash, last, polling)
         && StatusKept(r.status, last, w.created.value) && r.fill == last.fill
         && es == (if w.overlay then [ReadBalance] else []) + [GetMarket] + (if q.limit then [] else [GetBook])
                  + [CreateOrder(AmountOf(q).value)] + polling + [WriteJournal(p)]
  }

  lemma BoughtIsDone(q: Request, w: World)
    requires Buying(false, q, w).1.Bought?
    ensures var (es, out) := Buying(false, q, w); BuyDone(q, w, es, out.result, out.record)
  {
    hide AmountOf, NotionalOf, PollAll, StatusOf, RecordFits, SettledBy, StatusKept, RecordMatches, Lower, Upper,
         SameText;
    var amount := AmountOf(q).value;
    var created, hash := w.created.value, HashOf(w);
    var polled := PollAll(w, hash, created);
    var record := RecordOf(q, w, hash, polled.last, created);
    PollingSettles(w, hash);
    StatusIsKept(polled.last, created);
    RecordFitsOrder(q, w, hash, polled.last, created);
    UpperSame(q.outcome);
    RecordMatchesResult(q, w, hash, polled.last, created);
    SameEffects(q, w, amount, polled.effects, record);
  }

  lemma RecordMatchesResult(q: Request, w: World, hash: string, last: Order, created: Order)
    requires w.market.Some? && w.token.Some? && w.signed.Some? && NotionalOf(q).Some?
    ensures RecordMatches(RecordOf(q, w, hash, last, created), ResultOf(q, w, hash, last, created))
  {
    hide NotionalOf, StatusOf;
  }

  lemma SameEffects(q: Request, w: World, amount: nat, polling: seq<Effect>, p: LocalPosition)
    ensures var first := if w.overlay then [ReadBalance] else [];
            first + (Placed(q, amount) + polling + [WriteJournal(p)])
            == first + [GetMarket] + (if q.limit then [] else [GetBook]) + [CreateOrder(amount)] + polling
              + [WriteJournal(p)]
  {
    assert [GetMarket] + [GetBook] == [GetMarket, GetBook];
  }

  /** A buy that returns a result is done, and its record is what the journal then holds under the id of
      the market and the outcome. */
  lemma BoughtIsJournalled(q: Request, w: World, js: seq<LocalPosition>)
    requires Buying(false, q, w).1.Bought?
    ensures var (es, out) := Buying(false, q, w);
            && BuyDone(q, w, es, out.result, out.record)
            && GetPosition(WrittenBy(js, out), Str("pos-" + q.market + "-" + Lower(out.result.outcome)))
               == Some(out.record)
  {
    hide Buying, BuyDone, Lower, GetPosition, Upserted;
    BoughtIsDone(q, w);
    var (es, out) := Buying(false, q, w);
    UpsertIsMapUpdate(js, out.record, out.record.positionId);
    DoneId(q, w, es, out.result, out.record);
  }

  lemma DoneId(q: Request, w: World, es: seq<Effect>, r: TradeResult, p: LocalPosition)
    requires BuyDone(q, w, es, r, p)
    ensures p.positionId == Str("pos-" + q.market + "-" + Lower(r.outcome))
  {
    hide Lower, RecordFits, NotionalOf, AmountOf, SettledBy;
  }

  /** An amount typed as a whole number, a point and digits, 28 in all at most: the order is for that many
      tokens to the wei, and the journal notes the number that was typed. */
  lemma TypedBuy(q: Request, w: World, n: nat, f: string)
    requires AllDigits(f) && |NatText(n)| + |f| <= 28 && q.typed == NatText(n) + "." + f
    requires Buying(false, q, w).1.Bought?
    ensures AllDigits(Numerals.Places18(f))
    ensures AmountOf(q) == Some(1000000000000000000 * n + DigitsValue(Numerals.Places18(f)))
    ensures CreateOrder(AmountOf(q).value) in Buying(false, q, w).0
    ensures Buying(false, q, w).1.record.notionalUsdt == Number(n as real + Numerals.FractionValue(f))
  {
    hide Buying, DigitsValue, Numerals.Places18, NatText, Numerals.FractionValue, AmountText.ReadDecimal,
         AmountText.ReadFloat;
    Numerals.TypedAmount(n, f);
    BoughtIsDone(q, w);
    var (es, out) := Buying(false, q, w);
    DoneOrders(q, w, es, out.result, out.record);
  }

  lemma DoneOrders(q: Request, w: World, es: seq<Effect>, r: TradeResult, p: LocalPosition)
    requires BuyDone(q, w, es, r, p)
    ensures AmountOf(q).Some? && NotionalOf(q).Some?
    ensures CreateOrder(AmountOf(q).value) in es && p.notionalUsdt == Number(NotionalOf(q).value)
  {
    hide RecordFits, ResultFits, RecordMatches, NotionalOf, AmountOf, SettledBy, StatusKept;
  }

  // ---------- runs of buys ----------

  datatype Attempt = Attempt(q: Request, w: World)

  function OutcomeOf(buy: Attempt): Outcome {
    Buying(false, buy.q, buy.w).1
  }

  function RunTrace(buys: seq<Attempt>): seq<Effect> {
    if buys == [] then []
    else RunTrace(buys[..|buys| - 1]) + Buying(false, buys[|buys| - 1].q, buys[|buys| - 1].w).0
  }

  // The records of the successful buys, in order.
  function RunRecords(buys: seq<Attempt>): seq<LocalPosition> {
    if buys == [] then []
    else
      var out := OutcomeOf(buys[|buys| - 1]);
      RunRecords(buys[..|buys| - 1]) + if out.Bought? then [out.record] else []
  }

  function RunJournal(start: seq<LocalPosition>, buys: seq<Attempt>): seq<LocalPosition> {
    if buys == [] then start
    else WrittenBy(RunJournal(start, buys[..|buys| - 1]), OutcomeOf(buys[|buys| - 1]))
  }

  /** Over any run of buys, on any journal: at most one order and fifteen queries per buy; one journal
      write per result and never more writes than orders; and every position id reads as the record
      of the last successful buy that wrote it, or as before. */
  lemma {:induction false} RunOfBuys(start: seq<LocalPosition>, buys: seq<Attempt>)
    ensures var es := RunTrace(buys);
            && Count(IsWrite(), es) == |RunRecords(buys)| <= Count(IsOrder(), es) <= |buys|
            && Count(IsPoll(), es) <= MAX_POLLS * |buys|
    ensures RunJournal(start, buys) == UpsertedAll(start, RunRecords(buys))
    ensures forall id ::
              GetPosition(RunJournal(start, buys), id)
              == if LastWith(RunRecords(buys), id).Some? then LastWith(RunRecords(buys), id) else GetPosition(start, id)
  {
    hide Buying, RecordMatches, ReachesOrder, Upserted, GetPosition, LastWith;
    if buys != [] {
      var init, last := buys[..|buys| - 1], buys[|buys| - 1];
      RunOfBuys(start, init);
      BuyShape(false, last.q, last.w);
      CountsAppend(RunTrace(init), Buying(false, last.q, last.w).0);
      if OutcomeOf(last).Bought? {
        assert RunRecords(buys)[..|RunRecords(init)|] == RunRecords(init);
      } else {
        assert RunRecords(buys) == RunRecords(init);
      }
    }
    RunRefinesMap(start, RunRecords(buys));
  }

  // ---------- one record per market and outcome ----------

  // The outcome as it stands in a position id.
  function OutcomeKey(q: Request): string {
    Lower(Upper(q.outcome))
  }

  // The record of the last successful buy of this outcome in this market.
  function LastBuyOf(buys: seq<Attempt>, market: string, outcome: string): Option<LocalPosition> {
    if buys == [] then None
    else
      var last := buys[|buys| - 1];
      var out := OutcomeOf(last);
      if out.Bought? && last.q.market == market && OutcomeKey(last.q) == outcome then Some(out.record)
      else LastBuyOf(buys[..|buys| - 1], market, outcome)
  }

  lemma BoughtResult(q: Request, w: World, amount: nat)
    ensures var out := Ordering(q, w, amount).1;
            out.Bought? ==> out.result.market == q.market && out.result.outcome == Upper(q.outcome)
  {
    hide PollAll, RecordOf, NotionalOf;
  }

  lemma BoughtId(buy: Attempt)
    ensures var out := OutcomeOf(buy);
            out.Bought? ==> out.record.positionId == Str(PositionId(buy.q.market, OutcomeKey(buy.q)))
  {
    hide Ordering, AmountOf, Count, ReachesOrder;
    BuyShape(false, buy.q, buy.w);
    if AmountOf(buy.q).Some? {
      BoughtResult(buy.q, buy.w, AmountOf(buy.q).value);
    }
  }

  // No buy of the run is for another pair with the same position id.
  predicate NoCollision(buys: seq<Attempt>, market: string, outcome: string) {
    forall i :: 0 <= i < |buys| ==> !Collide(buys[i].q.market, OutcomeKey(buys[i].q), market, outcome)
  }

  lemma {:induction false} LastBuyIsLastWith(buys: seq<Attempt>, market: string, outcome: string)
    requires NoCollision(buys, market, outcome)
    ensures LastWith(RunRecords(buys), Str(PositionId(market, outcome))) == LastBuyOf(buys, market, outcome)
  {
    hide Buying, OutcomeOf, OutcomeKey, PositionId;
    if buys != [] {
      var init, last := buys[..|buys| - 1], buys[|buys| - 1];
      assert forall i :: 0 <= i < |init| ==> init[i] == buys[i];
      LastBuyIsLastWith(init, market, outcome);
      BoughtId(last);
      assert !Collide(last.q.market, OutcomeKey(last.q), market, outcome);
      if OutcomeOf(last).Bought? {
        assert RunRecords(buys)[..|RunRecords(init)|] == RunRecords(init);
      } else {
        assert RunRecords(buys) == RunRecords(init);
      }
    }
  }

  /** One record per market and outcome: where no other pair of the run shares its position id, and so
      wherever outcomes have no dash, a pair reads as the record of its last successful buy. */
  lemma OneRecordPerOutcome(start: seq<LocalPosition>, buys: seq<Attempt>, market: string, outcome: string)
    requires || NoCollision(buys, market, outcome)
             || ('-' !in outcome && forall i :: 0 <= i < |buys| ==> '-' !in OutcomeKey(buys[i].q))
    ensures var id, last := Str(PositionId(market, outcome)), LastBuyOf(buys, market, outcome);
            GetPosition(RunJournal(start, buys), id) == if last.Some? then last else GetPosition(start, id)
  {
    hide GetPosition, RunJournal, RunRecords, LastBuyOf, LastWith, OutcomeKey, PositionId, Collide;
    if !NoCollision(buys, market, outcome) {
      forall i | 0 <= i < |buys|
        ensures !Collide(buys[i].q.market, OutcomeKey(buys[i].q), market, outcome)
      {
        NoDashNoCollision(buys[i].q.market, OutcomeKey(buys[i].q), market, outcome);
      }
    }
    RunOfBuys(start, buys);
    LastBuyIsLastWith(buys, market, outcome);
  }

  // ---------- the reported shortfall ----------

  ghost predicate LeastDeposit(attempted: int, balance: int, deposit: nat) {
    Enough(attempted, balance, deposit) && forall d: nat :: Enough(attempted, balance, d) ==> deposit <= d
  }

  predicate Enough(attempted: int, balance: int, deposit: nat) {
    balance + deposit >= attempted
  }

  /** The reported shortfall is the least deposit that makes the retry pass the gate if and only if the
      balance is not negative; a negative one is taken for zero. */
  lemma ShortfallIsLeastIff(attempted: int, balance: int)
    requires attempted > 0
    ensures Shortfall(attempted, balance) >= 0
    ensures LeastDeposit(attempted, balance, Shortfall(attempted, balance)) <==> balance >= 0
    ensures balance < 0 ==> Shortfall(attempted, balance) == Shortfall(attempted, 0) == attempted
  {
    var least: nat := if balance < attempted then attempted - balance else 0;
    assert Enough(attempted, balance, least);
  }

  /** Depositing the reported shortfall lets the same buy through the gate, and one wei less does
      not. */
  lemma RetryAfterDeposit(q: Request, w: World)
    requires w.overlay && w.balance >= 0 && Buying(false, q, w).1.Failed?
    requires Buying(false, q, w).1.error.FundingRequired?
    ensures var d := Buying(false, q, w).1.error.shortfall;
            && d > 0
            && Buying(false, q, w.(balance := w.balance + d)) == (
                 var (es, out) := Ordering(q, w.(balance := w.balance + d), AmountOf(q).value);
                 ([ReadBalance] + es, out))
            && Buying(false, q, w.(balance := w.balance + d - 1)).1 == Failed(FundingRequired(1))
  {
    hide AmountOf, Ordering;
    var amount := AmountOf(q).value;
    if w.balance >= amount {
      OrderingNeverAsksForFunds(q, w, amount);
    }
  }

  lemma OrderingNeverAsksForFunds(q: Request, w: World, amount: nat)
    ensures var out := Ordering(q, w, amount).1; out.Failed? ==> out.error == CallFailed
  {
  }
}
