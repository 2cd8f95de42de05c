/** The list of positions kept in positions.json: records, the linear-scan upsert, and the simple
    map from position id to latest record that it implements. */
module PositionJournal {
  import opened Text

  // ---------- records ----------

  datatype Value = Null | Str(text: string) | Number(x: real) | Flag(b: bool) | Compound(json: string)

  // The keys the code writes, the older ones it still reads, and any other.
  datatype Key =
    | position_id | market_id | question | outcome_name | token_id | side | strategy | entry_time
    | entry_price | quantity | notional_usdt | order_hash | order_status | fill_amount | fee_rate_bps
    | source | notes | status
    | positionId | marketId | market_question | outcome | tokenId | created_at | size_wei
    | OtherKey(name: string)

  // A JSON object, as the value found under each key.
  type Record = Key -> Option<Value>

  // Fields hold whatever the JSON file held: the dataclass does not check types.
  datatype LocalPosition = LocalPosition(
    positionId: Value, marketId: Value, question: Value, outcomeName: Value, tokenId: Value, side: Value,
    strategy: Value, entryTime: Value, entryPrice: Value, quantity: Value, notionalUsdt: Value,
    orderHash: Value, orderStatus: Value, fillAmount: Value, feeRateBps: Value, source: Value,
    notes: Value, status: Value)

  function Get(r: Record, key: Key, fallback: Value): Value {
    match r(key)
    case Some(v) => v
    case None => fallback
  }

  function ToDict(p: LocalPosition): Record {
    (key: Key) => WrittenField(p, key)
  }

  function WrittenField(p: LocalPosition, key: Key): Option<Value> {
    match key
    case position_id => Some(p.positionId)
    case market_id => Some(p.marketId)
    case question => Some(p.question)
    case outcome_name => Some(p.outcomeName)
    case token_id => Some(p.tokenId)
    case side => Some(p.side)
    case strategy => Some(p.strategy)
    case entry_time => Some(p.entryTime)
    case entry_price => Some(p.entryPrice)
    case quantity => Some(p.quantity)
    case notional_usdt => Some(p.notionalUsdt)
    case order_hash => Some(p.orderHash)
    case order_status => Some(p.orderStatus)
    case fill_amount => Some(p.fillAmount)
    case fee_rate_bps => Some(p.feeRateBps)
    case source => Some(p.source)
    case notes => Some(p.notes)
    case status => Some(p.status)
    case _ => None
  }

  function FromDict(r: Record): LocalPosition {
    LocalPosition(
      Get(r, position_id, Get(r, Key.positionId, Str(""))),
      Get(r, market_id, Get(r, Key.marketId, Str(""))),
      Get(r, Key.question, Get(r, market_question, Str(""))),
      Get(r, outcome_name, Get(r, outcome, Str("UNKNOWN"))),
      Get(r, token_id, Get(r, Key.tokenId, Str(""))),
      Get(r, Key.side, Str("BUY")),
      Get(r, Key.strategy, Str("MARKET")),
      Get(r, entry_time, Get(r, created_at, Str(""))),
      Get(r, entry_price, Number(0.0)),
      Get(r, Key.quantity, Get(r, size_wei, Str("0"))),
      Get(r, notional_usdt, Number(0.0)),
      Get(r, order_hash, Str("")),
      Get(r, order_status, Get(r, Key.status, Str("OPEN"))),
      Get(r, fill_amount, Null),
      Get(r, fee_rate_bps, Number(0.0)),
      Get(r, Key.source, Str("tracked")),
      Get(r, Key.notes, Null),
      Get(r, Key.status, Str("OPEN")))
  }

  // The object holds what is written for p, and may hold more.
  predicate Holds(r: Record, p: LocalPosition, key: Key) {
    r(key) == WrittenField(p, key)
  }

  lemma MarketFields(r: Record, p: LocalPosition)
    requires Holds(r, p, position_id) && Holds(r, p, market_id) && Holds(r, p, Key.question)
    requires Holds(r, p, outcome_name) && Holds(r, p, token_id) && Holds(r, p, Key.side)
    ensures var q := FromDict(r);
            && q.positionId == p.positionId && q.marketId == p.marketId && q.question == p.question
            && q.outcomeName == p.outcomeName && q.tokenId == p.tokenId && q.side == p.side
  {
  }

  lemma EntryFields(r: Record, p: LocalPosition)
    requires Holds(r, p, Key.strategy) && Holds(r, p, entry_time) && Holds(r, p, entry_price)
    requires Holds(r, p, Key.quantity) && Holds(r, p, notional_usdt) && Holds(r, p, order_hash)
    ensures var q := FromDict(r);
            && q.strategy == p.strategy && q.entryTime == p.entryTime && q.entryPrice == p.entryPrice
            && q.quantity == p.quantity && q.notionalUsdt == p.notionalUsdt && q.orderHash == p.orderHash
  {
  }

  lemma OtherFields(r: Record, p: LocalPosition)
    requires Holds(r, p, order_status) && Holds(r, p, fill_amount) && Holds(r, p, fee_rate_bps)
    requires Holds(r, p, Key.source) && Holds(r, p, Key.notes) && Holds(r, p, Key.status)
    ensures var q := FromDict(r);
            && q.orderStatus == p.orderStatus && q.fillAmount == p.fillAmount && q.feeRateBps == p.feeRateBps
            && q.source == p.source && q.notes == p.notes && q.status == p.status
  {
  }

  /** A record read back is the record that was written, whatever its fields hold and whatever else the
      object holds, older keys included. */
  lemma WrittenKeysWin(r: Record, p: LocalPosition)
    requires forall key :: WrittenField(p, key).Some? ==> Holds(r, p, key)
    ensures FromDict(r) == p
  {
    hide FromDict, Holds;
    MarketFields(r, p);
    EntryFields(r, p);
    OtherFields(r, p);
  }

  /** None of the older keys is written. */
  lemma OlderKeysNotWritten(p: LocalPosition, key: Key)
    requires || key == Key.positionId || key == Key.marketId || key == market_question || key == outcome
             || key == Key.tokenId || key == created_at || key == size_wei || key.OtherKey?
    ensures ToDict(p)(key) == None
  {
  }

  /** In particular, from_dict undoes to_dict. */
  lemma RecordRoundTrip(p: LocalPosition)
    ensures FromDict(ToDict(p)) == p
  {
    hide FromDict;
    WrittenKeysWin(ToDict(p), p);
  }

  // A record under the older keys: seven fields had other names, and the order had no status of its own.
  function OlderField(p: LocalPosition, key: Key): Option<Value> {
    match key
    case positionId => Some(p.positionId)
    case marketId => Some(p.marketId)
    case market_question => Some(p.question)
    case outcome => Some(p.outcomeName)
    case tokenId => Some(p.tokenId)
    case created_at => Some(p.entryTime)
    case size_wei => Some(p.quantity)
    case side => Some(p.side)
    case strategy => Some(p.strategy)
    case entry_price => Some(p.entryPrice)
    case notional_usdt => Some(p.notionalUsdt)
    case order_hash => Some(p.orderHash)
    case fill_amount => Some(p.fillAmount)
    case fee_rate_bps => Some(p.feeRateBps)
    case source => Some(p.source)
    case notes => Some(p.notes)
    case status => Some(p.status)
    case _ => None
  }

  predicate HoldsOlder(r: Record, p: LocalPosition, key: Key) {
    r(key) == OlderField(p, key)
  }

  lemma OlderNames(r: Record, p: LocalPosition)
    requires HoldsOlder(r, p, position_id) && HoldsOlder(r, p, Key.positionId)
    requires HoldsOlder(r, p, market_id) && HoldsOlder(r, p, Key.marketId)
    requires HoldsOlder(r, p, Key.question) && HoldsOlder(r, p, market_question)
    requires HoldsOlder(r, p, outcome_name) && HoldsOlder(r, p, outcome)
    ensures var q := FromDict(r);
            && q.positionId == p.positionId && q.marketId == p.marketId
            && q.question == p.question && q.outcomeName == p.outcomeName
  {
  }

  lemma OlderFigures(r: Record, p: LocalPosition)
    requires HoldsOlder(r, p, token_id) && HoldsOlder(r, p, Key.tokenId)
    requires HoldsOlder(r, p, entry_time) && HoldsOlder(r, p, created_at)
    requires HoldsOlder(r, p, Key.quantity) && HoldsOlder(r, p, size_wei)
    requires HoldsOlder(r, p, order_status) && HoldsOlder(r, p, Key.status)
    ensures var q := FromDict(r);
            q.tokenId == p.tokenId && q.entryTime == p.entryTime && q.quantity == p.quantity && q.orderStatus == p.status
  {
  }

  lemma OlderSame(r: Record, p: LocalPosition)
    requires HoldsOlder(r, p, Key.side) && HoldsOlder(r, p, Key.strategy) && HoldsOlder(r, p, entry_price)
    requires HoldsOlder(r, p, notional_usdt) && HoldsOlder(r, p, order_hash)
    ensures var q := FromDict(r);
            && q.side == p.side && q.strategy == p.strategy && q.entryPrice == p.entryPrice
            && q.notionalUsdt == p.notionalUsdt && q.orderHash == p.orderHash
  {
  }

  lemma OlderRest(r: Record, p: LocalPosition)
    requires HoldsOlder(r, p, fill_amount) && HoldsOlder(r, p, fee_rate_bps)
    requires HoldsOlder(r, p, Key.source) && HoldsOlder(r, p, Key.notes) && HoldsOlder(r, p, Key.status)
    ensures var q := FromDict(r);
            && q.fillAmount == p.fillAmount && q.feeRateBps == p.feeRateBps
            && q.source == p.source && q.notes == p.notes && q.status == p.status
  {
  }

  /** A record under the older keys is read as the same record, with the status of the position for that
      of the order. */
  lemma OlderRoundTrip(r: Record, p: LocalPosition)
    requires forall key :: r(key) == OlderField(p, key)
    ensures FromDict(r) == p.(orderStatus := p.status)
  {
    hide FromDict, OlderField;
    assert forall key :: HoldsOlder(r, p, key);
    OlderNames(r, p);
    OlderFigures(r, p);
    OlderSame(r, p);
    OlderRest(r, p);
  }

  /** What is read from an empty object. */
  lemma EmptyRecord(r: Record)
    requires forall key :: r(key) == None
    ensures FromDict(r)
            == LocalPosition(
                 Str(""), Str(""), Str(""), Str("UNKNOWN"), Str(""), Str("BUY"), Str("MARKET"), Str(""), Number(0.0),
                 Str("0"), Number(0.0), Str(""), Str("OPEN"), Null, Number(0.0), Str("tracked"), Null, Str("OPEN"))
  {
  }

  // ---------- the file ----------

  datatype Item = Dict(record: Record) | NonDict

  datatype File = Missing | Corrupt | NonList | Listed(items: seq<Item>)

  function Records(items: seq<Item>): seq<Record> {
    if items == [] then []
    else if items[0].Dict? then [items[0].record] + Records(items[1..])
    else Records(items[1..])
  }

  function ReadPayload(f: File): seq<Record> {
    if f.Listed? then Records(f.items) else []
  }

  function Positions(records: seq<Record>): seq<LocalPosition> {
    seq(|records|, i requires 0 <= i < |records| => FromDict(records[i]))
  }

  function PositionsIn(f: File): seq<LocalPosition> {
    Positions(ReadPayload(f))
  }

  function Dumped(js: seq<LocalPosition>): seq<Item> {
    seq(|js|, i requires 0 <= i < |js| => Dict(ToDict(js[i])))
  }

  lemma {:induction false} RecordsOfDicts(items: seq<Item>)
    requires forall i :: 0 <= i < |items| ==> items[i].Dict?
    ensures |Records(items)| == |items|
    ensures forall i :: 0 <= i < |items| ==> Records(items)[i] == items[i].record
  {
    if items != [] {
      RecordsOfDicts(items[1..]);
      forall i | 0 <= i < |items|
        ensures Records(items)[i] == items[i].record
      {
        if i > 0 {
          assert items[i] == items[1..][i - 1];
        }
      }
    }
  }

  /** A journal written to the file is the journal that is listed. */
  lemma WrittenIsListed(js: seq<LocalPosition>)
    ensures PositionsIn(Listed(Dumped(js))) == js
  {
    RecordsOfDicts(Dumped(js));
    forall i | 0 <= i < |js|
      ensures PositionsIn(Listed(Dumped(js)))[i] == js[i]
    {
      RecordRoundTrip(js[i]);
    }
  }

  // ---------- the list as a map ----------

  // The first record with this id; the length when there is none.
  function IndexOf(js: seq<LocalPosition>, id: Value): (i: nat)
    ensures i <= |js|
    ensures i < |js| ==> js[i].positionId == id
    ensures forall j :: 0 <= j < i ==> js[j].positionId != id
  {
    if js == [] || js[0].positionId == id then 0
    else
      var i := IndexOf(js[1..], id);
      assert forall j :: 1 <= j < i + 1 ==> js[j] == js[1..][j - 1];
      i + 1
  }

  function GetPosition(js: seq<LocalPosition>, id: Value): Option<LocalPosition> {
    var i := IndexOf(js, id);
    if i < |js| then Some(js[i]) else None
  }

  function Upserted(js: seq<LocalPosition>, p: LocalPosition): seq<LocalPosition> {
    var i := IndexOf(js, p.positionId);
    if i < |js| then js[i := p] else js + [p]
  }

  lemma {:induction false} IndexIs(js: seq<LocalPosition>, id: Value, i: nat)
    requires i <= |js| && (i < |js| ==> js[i].positionId == id)
    requires forall j :: 0 <= j < i ==> js[j].positionId != id
    ensures IndexOf(js, id) == i
  {
    if i > 0 {
      IndexIs(js[1..], id, i - 1);
    }
  }

  /** One upsert on any journal, even one with repeated ids, is one map update: its own id reads
      back as the new record and every other id reads as before. */
  lemma UpsertIsMapUpdate(js: seq<LocalPosition>, p: LocalPosition, id: Value)
    ensures GetPosition(Upserted(js, p), id) == if id == p.positionId then Some(p) else GetPosition(js, id)
  {
    hide IndexOf;
    var out := Upserted(js, p);
    var at, i := IndexOf(js, p.positionId), IndexOf(js, id);
    if id == p.positionId {
      IndexIs(out, id, at);
    } else if i < |js| {
      IndexIs(out, id, i);
    } else {
      IndexIs(out, id, |out|);
    }
  }

  function Ids(js: seq<LocalPosition>): (ids: seq<Value>)
    ensures |ids| == |js| && forall i :: 0 <= i < |js| ==> ids[i] == js[i].positionId
  {
    seq(|js|, i requires 0 <= i < |js| => js[i].positionId)
  }

  /** An upsert keeps the order of ids and puts a new one at the end. */
  lemma UpsertKeepsOrder(js: seq<LocalPosition>, p: LocalPosition)
    ensures var i := IndexOf(js, p.positionId);
            Ids(Upserted(js, p)) == if i < |js| then Ids(js) else Ids(js) + [p.positionId]
  {
    hide IndexOf, Ids;
    var i := IndexOf(js, p.positionId);
    if i < |js| {
      IdsAfterUpdate(js, i, p);
    } else {
      IdsAfterAppend(js, p);
    }
  }

  lemma IdsAfterUpdate(js: seq<LocalPosition>, i: nat, p: LocalPosition)
    requires i < |js| && js[i].positionId == p.positionId
    ensures Ids(js[i := p]) == Ids(js)
  {
  }

  lemma IdsAfterAppend(js: seq<LocalPosition>, p: LocalPosition)
    ensures Ids(js + [p]) == Ids(js) + [p.positionId]
  {
  }

  // ---------- whole runs ----------

  // The journal after a run of upserts.
  function UpsertedAll(start: seq<LocalPosition>, ps: seq<LocalPosition>): seq<LocalPosition> {
    if ps == [] then start else Upserted(UpsertedAll(start, ps[..|ps| - 1]), ps[|ps| - 1])
  }

  // Starting from an empty one.
  function Journal(ps: seq<LocalPosition>): seq<LocalPosition> {
    UpsertedAll([], ps)
  }

  // These ids, and then those of a run in the order in which each first appears.
  function WithFirstIds(ids: seq<Value>, ps: seq<LocalPosition>): seq<Value> {
    if ps == [] then ids
    else
      var before := WithFirstIds(ids, ps[..|ps| - 1]);
      var id := ps[|ps| - 1].positionId;
      if id in before then before else before + [id]
  }

  function FirstIds(ps: seq<LocalPosition>): seq<Value> {
    WithFirstIds([], ps)
  }

  // The last record of a run with this id.
  function LastWith(ps: seq<LocalPosition>, id: Value): Option<LocalPosition> {
    if ps == [] then None
    else if ps[|ps| - 1].positionId == id then Some(ps[|ps| - 1])
    else LastWith(ps[..|ps| - 1], id)
  }

  predicate DistinctIds(ids: seq<Value>) {
    forall i, j :: 0 <= i < j < |ids| ==> ids[i] != ids[j]
  }

  lemma {:induction false} FirstIdsDistinct(ids: seq<Value>, ps: seq<LocalPosition>)
    requires DistinctIds(ids)
    ensures DistinctIds(WithFirstIds(ids, ps))
  {
    if ps != [] {
      FirstIdsDistinct(ids, ps[..|ps| - 1]);
    }
  }

  lemma HasId(js: seq<LocalPosition>, id: Value)
    ensures id in Ids(js) <==> IndexOf(js, id) < |js|
  {
    hide IndexOf;
    var at := IndexOf(js, id);
    if at < |js| {
      assert Ids(js)[at] == id;
    }
  }

  /** A run of upserts on any journal: new ids are appended in the order of their first insertion,
      and every id reads as its last written record, or as before when it was not written. */
  lemma {:induction false} RunRefinesMap(start: seq<LocalPosition>, ps: seq<LocalPosition>)
    ensures Ids(UpsertedAll(start, ps)) == WithFirstIds(Ids(start), ps)
    ensures forall id :: GetPosition(UpsertedAll(start, ps), id)
                         == if LastWith(ps, id).Some? then LastWith(ps, id) else GetPosition(start, id)
  {
    hide Upserted, GetPosition, Ids, IndexOf;
    if ps != [] {
      var before, p := ps[..|ps| - 1], ps[|ps| - 1];
      RunRefinesMap(start, before);
      var js := UpsertedAll(start, before);
      forall id
        ensures GetPosition(Upserted(js, p), id) == if id == p.positionId then Some(p) else GetPosition(js, id)
      {
        UpsertIsMapUpdate(js, p, id);
      }
      UpsertKeepsOrder(js, p);
      HasId(js, p.positionId);
    }
  }

  /** After any run of upserts from an empty journal it lists exactly the ids of the run, once each,
      in the order of their first insertion, and every id reads as its last written record. */
  lemma JournalRefinesMap(ps: seq<LocalPosition>)
    ensures Ids(Journal(ps)) == FirstIds(ps)
    ensures forall i, j :: 0 <= i < j < |Journal(ps)| ==> Journal(ps)[i].positionId != Journal(ps)[j].positionId
    ensures forall id :: GetPosition(Journal(ps), id) == LastWith(ps, id)
  {
    hide UpsertedAll, WithFirstIds, IndexOf;
    RunRefinesMap([], ps);
    assert Ids([]) == [];
    FirstIdsDistinct([], ps);
    assert forall i :: 0 <= i < |Journal(ps)| ==> Ids(Journal(ps))[i] == Journal(ps)[i].positionId;
    assert forall id :: GetPosition([], id) == None;
  }

  // ---------- the storage object ----------

  // Where an operation on the file raises, for example on a full disk.
  datatype Fault = NoFault | ReadFails | WriteFails | RenameFails

  class PositionStorage {
    var file: File
    var temp: File

    constructor (file: File)
      ensures this.file == file && temp == Missing
    {
      this.file, temp := file, Missing;
    }

    function ListPositions(): seq<LocalPosition>
      reads this`file
    {
      PositionsIn(file)
    }

    // The first listed record with this id.
    method GetPositionById(id: Value) returns (r: Option<LocalPosition>)
      ensures r == GetPosition(ListPositions(), id)
    {
      hide FromDict, PositionsIn;
      var positions := ListPositions();
      for i := 0 to |positions|
        invariant forall j :: 0 <= j < i ==> positions[j].positionId != id
      {
        if positions[i].positionId == id {
          IndexIs(positions, id, i);
          return Some(positions[i]);
        }
      }
      IndexIs(positions, id, |positions|);
      return None;
    }

    /** The whole new file: the upserted list, and the temporary file is gone. An upsert that raises
        leaves the file as it was. */
    method Upsert(position: LocalPosition, fault: Fault) returns (ok: bool)
      modifies this
      ensures ok <==> fault == NoFault
      ensures ok ==> ListPositions() == Upserted(old(ListPositions()), position)
      ensures ok ==> file == Listed(Dumped(ListPositions())) && temp == Missing
      ensures !ok ==> file == old(file)
    {
      hide FromDict, PositionsIn, Dumped, IndexOf;
      if fault == ReadFails {
        return false;
      }
      var positions := ListPositions();
      ghost var before := positions;
      var replaced := false;
      for index := 0 to |positions|
        invariant positions == before && !replaced
        invariant forall j :: 0 <= j < index ==> positions[j].positionId != position.positionId
      {
        if positions[index].positionId == position.positionId {
          IndexIs(before, position.positionId, index);
          positions := positions[index := position];
          replaced := true;
          break;
        }
      }
      if !replaced {
        IndexIs(before, position.positionId, |before|);
        positions := positions + [position];
      }
      ok := WritePayload(positions, fault);
    }

    method Seed(positions: seq<LocalPosition>, fault: Fault) returns (ok: bool)
      modifies this
      ensures ok <==> fault == NoFault
      ensures ok ==> ListPositions() == positions && file == Listed(Dumped(positions)) && temp == Missing
      ensures !ok ==> file == old(file)
    {
      ok := WritePayload(positions, fault);
    }

    // Write beside, then rename over; either can raise, and so can what comes before.
    method WritePayload(positions: seq<LocalPosition>, fault: Fault) returns (ok: bool)
      modifies this
      ensures ok <==> fault == NoFault
      ensures ok ==> ListPositions() == positions && file == Listed(Dumped(positions)) && temp == Missing
      ensures !ok ==> file == old(file)
    {
      hide FromDict, ToDict;
      if fault == ReadFails {
        return false;
      }
      if fault == WriteFails {
        temp := Corrupt;
        return false;
      }
      temp := Listed(Dumped(positions));
      if fault == RenameFails {
        return false;
      }
      file, temp := temp, Missing;
      WrittenIsListed(positions);
      ok := true;
    }
  }

  // ---------- position ids ----------

  function PositionId(market: string, outcome: string): string {
    "pos-" + market + "-" + outcome
  }

  predicate Collide(m1: string, o1: string, m2: string, o2: string) {
    PositionId(m1, o1) == PositionId(m2, o2) && (m1, o1) != (m2, o2)
  }

  // The second pair has the tail of the first market in front of its outcome.
  predicate Shifted(m1: string, o1: string, m2: string, o2: string, h: string) {
    o2 == h + "-" + o1 && m1 == m2 + "-" + h
  }

  lemma ShiftedCollide(m1: string, o1: string, m2: string, o2: string, h: string)
    requires Shifted(m1, o1, m2, o2, h)
    ensures Collide(m1, o1, m2, o2)
  {
    assert |o2| > |o1|;
    assert PositionId(m1, o1) == PositionId(m2, o2);
  }

  lemma LongerOutcome(m1: string, o1: string, m2: string, o2: string) returns (h: string)
    requires PositionId(m1, o1) == PositionId(m2, o2) && |o1| < |o2|
    ensures Shifted(m1, o1, m2, o2, h)
  {
    var s, n := PositionId(m1, o1), |o2| - |o1| - 1;
    h := o2[..n];
    assert s[4..4 + |m1|] == m1 && s[4 + |m1|..] == "-" + o1;
    assert s[4..4 + |m2|] == m2 && s[4 + |m2|..] == "-" + o2;
    assert |m1| == |m2| + 1 + n;
    assert o2[n..] == s[4 + |m1|..] == "-" + o1;
    assert o2 == h + "-" + o1;
    assert m1[|m2|..] == s[4 + |m2|..4 + |m1|] == "-" + h;
    assert m1[..|m2|] == m2;
  }

  lemma SameOutcomeLength(m1: string, o1: string, m2: string, o2: string)
    requires PositionId(m1, o1) == PositionId(m2, o2) && |o1| == |o2|
    ensures m1 == m2 && o1 == o2
  {
    var s := PositionId(m1, o1);
    assert |m1| == |m2|;
    assert s[|s| - |o1|..] == o1 && s[|s| - |o2|..] == o2;
    assert s[4..4 + |m1|] == m1 && s[4..4 + |m2|] == m2;
  }

  /** Two different pairs of market and outcome share a position id if and only if one is the other
      with a dash-separated piece moved from the end of the market to the front of the outcome. */
  lemma PositionIdsCollideIff(m1: string, o1: string, m2: string, o2: string)
    ensures Collide(m1, o1, m2, o2)
            <==> (exists h :: Shifted(m1, o1, m2, o2, h)) || (exists h :: Shifted(m2, o2, m1, o1, h))
  {
    hide Shifted;
    if Collide(m1, o1, m2, o2) {
      if |o1| == |o2| {
        SameOutcomeLength(m1, o1, m2, o2);
      } else if |o1| < |o2| {
        var h := LongerOutcome(m1, o1, m2, o2);
      } else {
        var h := LongerOutcome(m2, o2, m1, o1);
      }
    }
    if h :| Shifted(m1, o1, m2, o2, h) {
      ShiftedCollide(m1, o1, m2, o2, h);
    }
    if h :| Shifted(m2, o2, m1, o1, h) {
      ShiftedCollide(m2, o2, m1, o1, h);
    }
  }

  /** So ids are unique for outcomes without a dash, and for markets without one. */
  lemma NoDashNoCollision(m1: string, o1: string, m2: string, o2: string)
    requires ('-' !in o1 && '-' !in o2) || ('-' !in m1 && '-' !in m2)
    ensures !Collide(m1, o1, m2, o2)
  {
    PositionIdsCollideIff(m1, o1, m2, o2);
    forall h
      ensures Shifted(m1, o1, m2, o2, h) ==> '-' in o2 && '-' in m1
      ensures Shifted(m2, o2, m1, o1, h) ==> '-' in o1 && '-' in m2
    {
    }
  }

  /** Two outcomes share an id in some two markets if and only if one of them ends in a dash followed
      by the other. */
  lemma OutcomesCanCollideIff(o1: string, o2: string)
    ensures (exists m1, m2 :: Collide(m1, o1, m2, o2))
            <==> (exists h :: o2 == h + "-" + o1) || (exists h :: o1 == h + "-" + o2)
  {
    hide Collide;
    if h :| o2 == h + "-" + o1 {
      ShiftedCollide("-" + h, o1, "", o2, h);
    }
    if h :| o1 == h + "-" + o2 {
      ShiftedCollide("-" + h, o2, "", o1, h);
      CollideSymmetric("-" + h, o2, "", o1);
    }
    if m1, m2 :| Collide(m1, o1, m2, o2) {
      PositionIdsCollideIff(m1, o1, m2, o2);
    }
  }

  lemma CollideSymmetric(m1: string, o1: string, m2: string, o2: string)
    ensures Collide(m1, o1, m2, o2) <==> Collide(m2, o2, m1, o1)
  {
  }
}
