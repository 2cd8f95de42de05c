/** Request correlation over whole runs: which message each request gets, whatever the child
    interleaves with the answers. */
module Correlation {
  import opened Text
  import opened Framing
  import opened FramingRoundTrip
  import opened StdioClient
  import opened StableSort

  // ---------- which request a message answers ----------

  // The id of the message is this number, however it is written: Python's == on numbers.
  predicate HasId(m: Message, k: int) {
    || m.id == IntId(k) || m.id == FloatId(k as real)
    || (m.id == BoolId(true) && k == 1) || (m.id == BoolId(false) && k == 0)
  }

  // The id is a number at all.
  function Numbered(): Message -> bool {
    (m: Message) => m.id.IntId? || m.id.FloatId? || m.id.BoolId?
  }

  /** A message answers exactly the request whose number it carries as its id, and so at most one; a
      notification without an id and a message with a text for an id answer none. */
  lemma AnswersIff(m: Message, j: int, k: int)
    ensures Answers(m, k) <==> HasId(m, k)
    ensures Answers(m, j) && Answers(m, k) ==> j == k
    ensures Answers(m, k) ==> Numbered()(m)
  {
    match m.id
    case FloatId(x) => assert Answers(m, j) && Answers(m, k) ==> j as real == k as real;
    case _ =>
  }

  // The position of the first message that answers `request`; the length when none does.
  function FirstAnswer(ms: seq<Message>, request: int): (i: nat)
    ensures i <= |ms|
    ensures i < |ms| ==> Answers(ms[i], request)
    ensures forall j :: 0 <= j < i ==> !Answers(ms[j], request)
  {
    if ms == [] then 0
    else if Answers(ms[0], request) then 0
    else
      var i := FirstAnswer(ms[1..], request);
      assert forall j :: 1 <= j < i + 1 ==> ms[j] == ms[1..][j - 1];
      i + 1
  }

  // How a request with this id ends on framed messages, and how many messages it takes.
  function FirstReply(ms: seq<Message>, request: int): Awaited {
    var i := FirstAnswer(ms, request);
    if i < |ms| then Reply(ms[i]) else Broken(ProcessExited)
  }

  function TakenBy(ms: seq<Message>, request: int): (n: nat)
    ensures n <= |ms|
  {
    var i := FirstAnswer(ms, request);
    if i < |ms| then i + 1 else |ms|
  }

  /** On the byte stream, in any mix of framings, a request is given the first message that
      answers it, skips exactly those before it and leaves everything after it in the stream; when
      no message answers, it reports the end of the process. Nothing else can happen. */
  lemma {:induction false} AwaitOnFrames(json: JsonReader, fs: seq<Frame>, ms: seq<Message>, request: int,
                                         a: Awaited, after: Bytes)
    requires CarriesAll(json, fs, ms)
    ensures Awaits(json, EncodeAll(fs), request, a, after)
            <==> a == FirstReply(ms, request) && after == EncodeAll(fs[TakenBy(ms, request)..])
  {
    hide Awaits, Answers, Carries, Encode;
    if fs == [] {
      AwaitNothing(json, request, a, after);
    } else {
      AwaitStep(json, fs[0], ms[0], EncodeAll(fs[1..]), request, a, after);
      if !Answers(ms[0], request) {
        AwaitOnFrames(json, fs[1..], ms[1..], request, a, after);
        assert fs[1..][TakenBy(ms[1..], request)..] == fs[TakenBy(ms, request)..];
      }
    }
  }

  lemma AwaitNothing(json: JsonReader, request: int, a: Awaited, after: Bytes)
    ensures Awaits(json, "", request, a, after) <==> a == Broken(ProcessExited) && after == ""
  {
    hide NextMessage;
    NextMessageProgress(json, "");
  }

  lemma AwaitStep(json: JsonReader, f: Frame, m: Message, rest: Bytes, request: int, a: Awaited, after: Bytes)
    requires Carries(json, f, m)
    ensures Awaits(json, Encode(f) + rest, request, a, after)
            <==> if Answers(m, request) then a == Reply(m) && after == rest else Awaits(json, rest, request, a, after)
  {
    hide NextMessage, Carries, Encode, Answers;
    FrameStep(json, f, m, rest);
    NextMessageProgress(json, Encode(f) + rest);
  }

  // Requests one after another on one stream, with ids from `id` on: how each ends.
  ghost predicate Requests(json: JsonReader, s: Bytes, id: int, ends: seq<Awaited>, after: Bytes)
    decreases |ends|
  {
    if ends == [] then after == s
    else exists mid :: Awaits(json, s, id, ends[0], mid) && Requests(json, mid, id + 1, ends[1..], after)
  }

  lemma RequestsStep(json: JsonReader, s: Bytes, id: int, ends: seq<Awaited>, after: Bytes, first: Awaited, mid: Bytes)
    requires ends != [] && forall m :: Awaits(json, s, id, ends[0], m) <==> ends[0] == first && m == mid
    ensures Requests(json, s, id, ends, after) <==> ends[0] == first && Requests(json, mid, id + 1, ends[1..], after)
  {
    hide Awaits;
    if ends[0] == first {
      assert Awaits(json, s, id, ends[0], mid);
    }
  }

  function Replies(ms: seq<Message>, id: int, n: nat): seq<Awaited>
    decreases n
  {
    if n == 0 then [] else [FirstReply(ms, id)] + Replies(ms[TakenBy(ms, id)..], id + 1, n - 1)
  }

  // How many messages n requests in a row take.
  function TakenByAll(ms: seq<Message>, id: int, n: nat): (taken: nat)
    ensures taken <= |ms|
    decreases n
  {
    if n == 0 then 0
    else var first := TakenBy(ms, id); first + TakenByAll(ms[first..], id + 1, n - 1)
  }

  /** Any number of requests in a row on one stream of framed messages: each gets the first message
      with its id among those its predecessors left, and what is left after them are the frames of
      the messages that were not taken. Nothing else can happen. */
  lemma {:induction false} RequestsOnFrames(json: JsonReader, fs: seq<Frame>, ms: seq<Message>, id: int,
                                            ends: seq<Awaited>, after: Bytes)
    requires CarriesAll(json, fs, ms)
    ensures Requests(json, EncodeAll(fs), id, ends, after)
            <==> ends == Replies(ms, id, |ends|) && after == EncodeAll(fs[TakenByAll(ms, id, |ends|)..])
    decreases |ends|
  {
    hide Awaits, FirstReply, TakenBy, Carries, EncodeAll;
    if ends == [] {
      assert fs[0..] == fs;
    } else {
      var n := TakenBy(ms, id);
      var mid := EncodeAll(fs[n..]);
      forall m
        ensures Awaits(json, EncodeAll(fs), id, ends[0], m) <==> ends[0] == FirstReply(ms, id) && m == mid
      {
        AwaitOnFrames(json, fs, ms, id, ends[0], m);
      }
      RequestsStep(json, EncodeAll(fs), id, ends, after, FirstReply(ms, id), mid);
      RequestsOnFrames(json, fs[n..], ms[n..], id + 1, ends[1..], after);
      var more := Replies(ms[n..], id + 1, |ends| - 1);
      assert ([FirstReply(ms, id)] + more)[1..] == more;
      assert fs[n..][TakenByAll(ms[n..], id + 1, |ends| - 1)..] == fs[TakenByAll(ms, id, |ends|)..];
      assert ends == [ends[0]] + ends[1..];
    }
  }

  // What a request returns for the message with its id: an error object comes before the result.
  predicate Returns(m: Message, r: Result<string, RpcError>) {
    && (m.error.ObjectMember? ==> r == Failure(Remote(m.error.text)))
    && (!m.error.ObjectMember? && m.result.ObjectMember? ==> r == Success(m.result.text))
    && (!m.error.ObjectMember? && !m.result.ObjectMember? ==> r == Failure(NoResult))
  }

  lemma OutcomeReturns(m: Message)
    ensures Returns(m, Outcome(m))
  {
  }

  // The first message with this id, and what it means for a request.
  lemma FirstWithId(ms: seq<Message>, request: int) returns (i: nat)
    ensures i <= |ms| && forall j :: 0 <= j < i ==> !HasId(ms[j], request)
    ensures if i < |ms| then
              HasId(ms[i], request) && FirstReply(ms, request) == Reply(ms[i]) && TakenBy(ms, request) == i + 1
            else FirstReply(ms, request) == Broken(ProcessExited) && TakenBy(ms, request) == |ms|
  {
    hide Answers, HasId;
    i := FirstAnswer(ms, request);
    forall j | 0 <= j < |ms|
      ensures Answers(ms[j], request) <==> HasId(ms[j], request)
    {
      AnswersIff(ms[j], request, request);
    }
  }

  /** What a request returns on framed messages: the result of the first message with its id, unless
      that message reports an error or has no result object, and what is left are the frames behind
      it; without such a message, the end of the process. */
  lemma RequestReturns(json: JsonReader, fs: seq<Frame>, ms: seq<Message>, request: int,
                       r: Result<string, RpcError>, after: Bytes) returns (i: nat)
    requires CarriesAll(json, fs, ms) && RequestMatches(json, r, EncodeAll(fs), request, after)
    ensures i <= |ms| == |fs| && forall j :: 0 <= j < i ==> !HasId(ms[j], request)
    ensures if i < |ms| then HasId(ms[i], request) && Returns(ms[i], r) && after == EncodeAll(fs[i + 1..])
            else r == Failure(Transport(ProcessExited)) && after == ""
  {
    hide Awaits, Carries, HasId, Outcome, Returns, FirstReply, TakenBy;
    i := FirstWithId(ms, request);
    var a :| Awaits(json, EncodeAll(fs), request, a, after) && r == Settle(a);
    AwaitOnFrames(json, fs, ms, request, a, after);
    if i < |ms| {
      OutcomeReturns(ms[i]);
    }
  }

  // ---------- messages nobody waits for ----------

  // The messages whose id is a number.
  function Signals(ms: seq<Message>): seq<Message> {
    Filter(Numbered(), ms)
  }

  // Where a request ends does not depend on the messages without a number for an id.
  lemma {:induction false} NoiseIsSkipped(ms: seq<Message>, request: int)
    ensures FirstReply(ms, request) == FirstReply(Signals(ms), request)
    ensures Signals(ms[TakenBy(ms, request)..]) == Signals(ms)[TakenBy(Signals(ms), request)..]
  {
    hide Answers, Numbered;
    if ms != [] {
      var rest := ms[1..];
      AnswersIff(ms[0], request, request);
      NoiseIsSkipped(rest, request);
      if Answers(ms[0], request) {
        assert Signals(ms)[1..] == Signals(rest);
      } else {
        assert ms[TakenBy(ms, request)..] == rest[TakenBy(rest, request)..];
        if Numbered()(ms[0]) {
          assert Signals(ms)[1..] == Signals(rest);
          assert Signals(ms)[TakenBy(Signals(ms), request)..] == Signals(rest)[TakenBy(Signals(rest), request)..];
        }
      }
    }
  }

  lemma {:induction false} RepliesSkipNoise(ms: seq<Message>, id: int, n: nat)
    ensures Replies(ms, id, n) == Replies(Signals(ms), id, n)
    ensures Signals(ms[TakenByAll(ms, id, n)..]) == Signals(ms)[TakenByAll(Signals(ms), id, n)..]
    decreases n
  {
    hide FirstReply, TakenBy, Signals;
    if n == 0 {
      assert ms[0..] == ms && Signals(ms)[0..] == Signals(ms);
    } else {
      var k, q := TakenBy(ms, id), TakenBy(Signals(ms), id);
      NoiseIsSkipped(ms, id);
      RepliesSkipNoise(ms[k..], id + 1, n - 1);
      assert ms[TakenByAll(ms, id, n)..] == ms[k..][TakenByAll(ms[k..], id + 1, n - 1)..];
      assert Signals(ms)[TakenByAll(Signals(ms), id, n)..]
             == Signals(ms)[q..][TakenByAll(Signals(ms)[q..], id + 1, n - 1)..];
    }
  }

  /** Notifications, and messages with a text for an id, change nothing: on two streams that differ in
      such messages only, wherever these stand and in whatever framing, any number of requests ends
      alike, and what is left differs in such messages only. */
  lemma NoiseChangesNothing(json: JsonReader, fs: seq<Frame>, ms: seq<Message>, gs: seq<Frame>, ns: seq<Message>,
                            id: int, ends: seq<Awaited>, after: Bytes, ends': seq<Awaited>, after': Bytes)
    returns (i: nat, j: nat)
    requires CarriesAll(json, fs, ms) && CarriesAll(json, gs, ns) && Signals(ms) == Signals(ns)
    requires Requests(json, EncodeAll(fs), id, ends, after) && Requests(json, EncodeAll(gs), id, ends', after')
    requires |ends| == |ends'|
    ensures ends == ends'
    ensures i <= |ms| == |fs| && j <= |ns| == |gs| && Signals(ms[i..]) == Signals(ns[j..])
    ensures after == EncodeAll(fs[i..]) && after' == EncodeAll(gs[j..])
  {
    hide Requests, Replies, TakenByAll, Signals, Carries, EncodeAll;
    i, j := TakenByAll(ms, id, |ends|), TakenByAll(ns, id, |ends|);
    RequestsOnFrames(json, fs, ms, id, ends, after);
    RequestsOnFrames(json, gs, ns, id, ends', after');
    RepliesSkipNoise(ms, id, |ends|);
    RepliesSkipNoise(ns, id, |ends|);
  }

  // ---------- streams that are not all messages ----------

  /** A piece of a stream: a framed message, or bytes that make a read raise and are taken by it. */
  datatype Piece = Good(frame: Frame, message: Message) | Bad(bytes: Bytes, error: ReadError)

  ghost predicate PieceIs(json: JsonReader, p: Piece) {
    match p
    case Good(f, m) => Carries(json, f, m)
    case Bad(bytes, e) => forall rest :: NextMessage(json, bytes + rest) == Took(Failed(e), rest)
  }

  ghost predicate AllPieces(json: JsonReader, ps: seq<Piece>) {
    forall i :: 0 <= i < |ps| ==> PieceIs(json, ps[i])
  }

  function PieceBytes(p: Piece): Bytes {
    match p
    case Good(f, _) => Encode(f)
    case Bad(bytes, _) => bytes
  }

  function StreamOf(ps: seq<Piece>): Bytes {
    if ps == [] then "" else PieceBytes(ps[0]) + StreamOf(ps[1..])
  }

  // A request stops at this piece.
  predicate Stops(p: Piece, request: int) {
    match p
    case Good(_, m) => Answers(m, request)
    case Bad(_, _) => true
  }

  function EndAt(p: Piece): Awaited {
    match p
    case Good(_, m) => Reply(m)
    case Bad(_, e) => Broken(e)
  }

  // How a request ends on these pieces, and the pieces it leaves.
  function EndOn(ps: seq<Piece>, request: int): (Awaited, seq<Piece>) {
    if ps == [] then (Broken(ProcessExited), [])
    else if Stops(ps[0], request) then (EndAt(ps[0]), ps[1..])
    else EndOn(ps[1..], request)
  }

  lemma {:induction false} AwaitOnPieces(json: JsonReader, ps: seq<Piece>, request: int, a: Awaited, after: Bytes)
    requires AllPieces(json, ps)
    ensures Awaits(json, StreamOf(ps), request, a, after)
            <==> a == EndOn(ps, request).0 && after == StreamOf(EndOn(ps, request).1)
  {
    hide Awaits, PieceIs, Answers, Encode;
    if ps == [] {
      AwaitNothing(json, request, a, after);
    } else {
      assert forall i :: 0 <= i < |ps[1..]| ==> ps[1..][i] == ps[i + 1];
      AwaitPiece(json, ps[0], StreamOf(ps[1..]), request, a, after);
      if !Stops(ps[0], request) {
        AwaitOnPieces(json, ps[1..], request, a, after);
      }
    }
  }

  lemma AwaitPiece(json: JsonReader, p: Piece, rest: Bytes, request: int, a: Awaited, after: Bytes)
    requires PieceIs(json, p)
    ensures Awaits(json, PieceBytes(p) + rest, request, a, after)
            <==> if Stops(p, request) then a == EndAt(p) && after == rest else Awaits(json, rest, request, a, after)
  {
    hide NextMessage, Carries, Encode, Answers;
    match p
    case Good(f, m) => AwaitStep(json, f, m, rest, request, a, after);
    case Bad(bytes, e) => NextMessageProgress(json, bytes + rest);
  }

  lemma EndOnKeeps(json: JsonReader, ps: seq<Piece>, request: int)
    requires AllPieces(json, ps)
    ensures AllPieces(json, EndOn(ps, request).1)
  {
    hide PieceIs, Stops;
    if ps != [] {
      assert forall i :: 0 <= i < |ps[1..]| ==> ps[1..][i] == ps[i + 1];
      if !Stops(ps[0], request) {
        EndOnKeeps(json, ps[1..], request);
      }
    }
  }

  // How n requests in a row end, and the pieces they leave.
  function EndsOn(ps: seq<Piece>, id: int, n: nat): (seq<Awaited>, seq<Piece>)
    decreases n
  {
    if n == 0 then ([], ps)
    else
      var (first, left) := EndOn(ps, id);
      var (more, rest) := EndsOn(left, id + 1, n - 1);
      ([first] + more, rest)
  }

  /** Any number of requests in a row on a stream that mixes framed messages with bad lines and failing
      blocks: each takes the pieces up to the first message with its id or the first bad piece, in any
      order of these, and nothing else can happen. */
  lemma {:induction false} RequestsOnPieces(json: JsonReader, ps: seq<Piece>, id: int, ends: seq<Awaited>, after: Bytes)
    requires AllPieces(json, ps)
    ensures Requests(json, StreamOf(ps), id, ends, after)
            <==> ends == EndsOn(ps, id, |ends|).0 && after == StreamOf(EndsOn(ps, id, |ends|).1)
    decreases |ends|
  {
    hide Awaits, AllPieces, EndOn, StreamOf;
    if ends != [] {
      var (first, left) := EndOn(ps, id);
      forall m
        ensures Awaits(json, StreamOf(ps), id, ends[0], m) <==> ends[0] == first && m == StreamOf(left)
      {
        AwaitOnPieces(json, ps, id, ends[0], m);
      }
      EndOnKeeps(json, ps, id);
      RequestsStep(json, StreamOf(ps), id, ends, after, first, StreamOf(left));
      RequestsOnPieces(json, left, id + 1, ends[1..], after);
      var more := EndsOn(left, id + 1, |ends| - 1).0;
      assert ([first] + more)[1..] == more;
      assert ends == [ends[0]] + ends[1..];
    }
  }

  // ---------- the client and the child as a transition system ----------

  // How a request ended: with the message consumed at this place, or with a write or a read that
  // raised after this many consumed messages.
  datatype Ending = Answered(at: nat) | Raised(at: nat)

  /** `issued` requests were written so far, the last one still open when `waiting`. The child's
      messages are `consumed` or still `pending`; issuedAt[k - 1] messages had been consumed when
      request k was written, and endings[k - 1] is how it ended. */
  datatype Link = Link(
    issued: nat, waiting: bool, consumed: seq<Message>, pending: seq<Message>,
    issuedAt: seq<nat>, endings: seq<Ending>)
  {
    function Emitted(): seq<Message> { consumed + pending }
  }

  const START := Link(0, false, [], [], [], [])

  // Writing a request can raise, which uses up its id. A read can raise, which ends the open request
  // and can take messages with it: a failing header block takes the lines and the body it finds. In
  // both cases the bridge keeps its client.
  datatype Event = Issue | IssueFails | Emit(message: Message) | Deliver | Raise(lost: nat)

  predicate Enabled(s: Link, e: Event) {
    match e
    case Issue => !s.waiting
    case IssueFails => !s.waiting
    case Emit(_) => true
    case Deliver => s.waiting && s.pending != []
    case Raise(lost) => s.waiting && lost <= |s.pending|
  }

  function Next(s: Link, e: Event): Link
    requires Enabled(s, e)
  {
    match e
    case Issue => s.(issued := s.issued + 1, waiting := true, issuedAt := s.issuedAt + [|s.consumed|])
    case IssueFails =>
      s.(issued := s.issued + 1, issuedAt := s.issuedAt + [|s.consumed|], endings := s.endings + [Raised(|s.consumed|)])
    case Emit(m) => s.(pending := s.pending + [m])
    case Deliver =>
      var m := s.pending[0];
      var t := s.(consumed := s.consumed + [m], pending := s.pending[1..]);
      if Answers(m, s.issued) then t.(waiting := false, endings := s.endings + [Answered(|s.consumed|)]) else t
    case Raise(lost) =>
      s.(waiting := false, endings := s.endings + [Raised(|s.consumed|)],
         consumed := s.consumed + s.pending[..lost], pending := s.pending[lost..])
  }

  // The state after a run of events, when every event was possible where it stands.
  function Run(events: seq<Event>): Option<Link> {
    if events == [] then Some(START)
    else
      match Run(events[..|events| - 1])
      case None => None
      case Some(s) =>
        var e := events[|events| - 1];
        if Enabled(s, e) then Some(Next(s, e)) else None
  }

  // The child answers only requests that were written before.
  ghost predicate Causal(events: seq<Event>) {
    if events == [] then true
    else
      var before := events[..|events| - 1];
      Causal(before) &&
      match events[|events| - 1]
      case Emit(m) => Run(before).Some? ==> AnswersNoneAfter(m, Run(before).value.issued)
      case _ => true
  }

  ghost predicate AnswersNone(ms: seq<Message>, lo: int, hi: int, request: int)
    requires 0 <= lo <= hi <= |ms|
  {
    forall j :: lo <= j < hi ==> !Answers(ms[j], request)
  }

  ghost predicate AnswersNoneAfter(m: Message, issued: nat) {
    forall k :: k > issued ==> !Answers(m, k)
  }

  // Request k got the first message read after its issue that answers it, or raised before any did.
  ghost predicate Served(s: Link, k: int)
    requires 1 <= k <= |s.issuedAt| && k <= |s.endings|
  {
    var at := s.endings[k - 1].at;
    && s.issuedAt[k - 1] <= at <= |s.consumed|
    && AnswersNone(s.consumed, s.issuedAt[k - 1], at, k)
    && (s.endings[k - 1].Answered? ==> at < |s.consumed| && Answers(s.consumed[at], k))
  }

  ghost predicate Inv(s: Link) {
    && |s.issuedAt| == s.issued && |s.endings| == (if s.waiting then s.issued - 1 else s.issued)
    && (forall k :: 0 <= k < s.issued ==> s.issuedAt[k] <= |s.consumed|)
    && (forall k :: 1 <= k <= |s.endings| ==> Served(s, k))
    && (s.waiting ==> AnswersNone(s.consumed, s.issuedAt[s.issued - 1], |s.consumed|, s.issued))
  }

  lemma ServedStays(s: Link, t: Link, k: int)
    requires 1 <= k <= |s.issuedAt| && k <= |s.endings| && Served(s, k)
    requires s.consumed <= t.consumed && s.issuedAt <= t.issuedAt && s.endings <= t.endings
    ensures Served(t, k)
  {
    hide Answers;
    assert forall j :: 0 <= j < |s.consumed| ==> t.consumed[j] == s.consumed[j];
  }

  lemma InvStep(s: Link, e: Event)
    requires Inv(s) && Enabled(s, e)
    ensures Inv(Next(s, e))
  {
    hide Answers;
    var t := Next(s, e);
    forall k | 1 <= k <= |s.endings|
      ensures Served(t, k)
    {
      ServedStays(s, t, k);
    }
    if |t.endings| > |s.endings| {
      assert Served(t, t.issued);
    }
  }

  /** Every run keeps the invariant, whatever the child interleaves, whichever writes and reads raise
      and whatever those take with them: ids count up one by one; every request that was answered got
      a message carrying its own id, the first such message read after the request was written; one
      that raised had read none. */
  lemma {:induction false} EveryRequestServed(events: seq<Event>)
    requires Run(events).Some?
    ensures Inv(Run(events).value)
  {
    hide Inv, Next, Enabled;
    if events != [] {
      EveryRequestServed(events[..|events| - 1]);
      InvStep(Run(events[..|events| - 1]).value, events[|events| - 1]);
    } else {
      StartInv();
    }
  }

  lemma StartInv()
    ensures Inv(START)
  {
  }

  /** An answered request got the first answer the child ever gave to its id if and only if none of
      the messages consumed before it was written carries that id. */
  lemma OwnAnswerIffNotEarly(events: seq<Event>, k: nat)
    requires Run(events).Some? && 1 <= k <= |Run(events).value.endings|
    requires Run(events).value.endings[k - 1].Answered?
    ensures var s := Run(events).value;
            && |s.issuedAt| == s.issued && k <= s.issued && s.issuedAt[k - 1] <= |s.consumed|
            && (s.endings[k - 1].at == FirstAnswer(s.Emitted(), k) <==> AnswersNone(s.consumed, 0, s.issuedAt[k - 1], k))
  {
    hide Answers, Run;
    EveryRequestServed(events);
    var s := Run(events).value;
    assert Served(s, k);
    assert forall j :: 0 <= j < |s.consumed| ==> s.Emitted()[j] == s.consumed[j];
    var i, at := FirstAnswer(s.Emitted(), k), s.endings[k - 1].at;
    assert i <= at;
  }

  lemma EmittedStep(s: Link, e: Event)
    requires Enabled(s, e)
    ensures Next(s, e).Emitted() == if e.Emit? then s.Emitted() + [e.message] else s.Emitted()
    ensures s.issued <= Next(s, e).issued
  {
    hide Answers;
  }

  // With a causal child, nothing the child has said so far answers a request not yet written.
  lemma {:induction false} CausalChild(events: seq<Event>, k: nat)
    requires Run(events).Some? && Causal(events)
    ensures var s := Run(events).value; k > s.issued ==> AnswersNone(s.Emitted(), 0, |s.Emitted()|, k)
  {
    hide Answers, Next;
    if events != [] {
      var before, e := events[..|events| - 1], events[|events| - 1];
      CausalChild(before, k);
      EmittedStep(Run(before).value, e);
    }
  }

  // ... so nothing consumed before a request was written answers it.
  lemma {:induction false} NothingEarly(events: seq<Event>, k: nat)
    requires Run(events).Some? && Causal(events) && Inv(Run(events).value)
    requires 1 <= k <= Run(events).value.issued
    ensures var s := Run(events).value; AnswersNone(s.consumed, 0, s.issuedAt[k - 1], k)
  {
    hide Answers;
    var before, e := events[..|events| - 1], events[|events| - 1];
    var s, t := Run(before).value, Run(events).value;
    EveryRequestServed(before);
    if (e.Issue? || e.IssueFails?) && k == t.issued {
      CausalChild(before, k);
      assert forall j :: 0 <= j < |s.consumed| ==> s.Emitted()[j] == s.consumed[j];
    } else {
      NothingEarly(before, k);
      assert forall j :: 0 <= j < |s.consumed| ==> t.consumed[j] == s.consumed[j];
    }
  }

  /** A child that never answers an id before it is issued: in every interleaving of requests,
      notifications, stale replies, answers, and writes and reads that raise, every answered request
      got its own answer, the first the child gave to it. */
  lemma CausalChildAnswersEach(events: seq<Event>, k: nat)
    requires Run(events).Some? && Causal(events) && 1 <= k <= |Run(events).value.endings|
    requires Run(events).value.endings[k - 1].Answered?
    ensures var s := Run(events).value; s.endings[k - 1].at == FirstAnswer(s.Emitted(), k)
  {
    EveryRequestServed(events);
    NothingEarly(events, k);
    OwnAnswerIffNotEarly(events, k);
  }

  // Request 1 is written, and the child says something with id 2, then with id 1, then with id 2.
  function Chatter(one: Message, two: Message, again: Message): seq<Event> {
    [Issue] + [Emit(two)] + [Emit(one)] + [Emit(again)]
  }

  lemma ChatterRun(one: Message, two: Message, again: Message)
    ensures Run(Chatter(one, two, again)) == Some(Link(1, true, [], [two, one, again], [0], []))
  {
    hide Run, Answers;
    EmptyRun();
    assert [] + [Issue] == [Issue];
    RunStep([], Issue, Link(1, true, [], [], [0], []));
    RunStep([Issue], Emit(two), Link(1, true, [], [two], [0], []));
    RunStep([Issue] + [Emit(two)], Emit(one), Link(1, true, [], [two, one], [0], []));
    RunStep([Issue] + [Emit(two)] + [Emit(one)], Emit(again), Link(1, true, [], [two, one, again], [0], []));
  }

  /** A child that does answer early: request 2, written after request 1 got its answer, gets the
      second message with id 2 and not the first. */
  lemma EarlyAnswerIsMissed(one: Message, two: Message, again: Message)
    requires one.id == IntId(1) && two.id == IntId(2) && again.id == IntId(2)
    ensures var run := Run(Chatter(one, two, again) + [Deliver] + [Deliver] + [Issue] + [Deliver]);
            && run.Some? && run.value.endings == [Answered(1), Answered(2)]
            && FirstAnswer(run.value.Emitted(), 2) == 0
  {
    hide Run, Answers, Chatter;
    var events := Chatter(one, two, again);
    ChatterRun(one, two, again);
    IdsAnswer(one, two, again);
    RunStep(events, Deliver, Link(1, true, [two], [one, again], [0], []));
    RunStep(events + [Deliver], Deliver, Link(1, false, [two, one], [again], [0], [Answered(1)]));
    RunStep(events + [Deliver] + [Deliver], Issue, Link(2, true, [two, one], [again], [0, 2], [Answered(1)]));
    RunStep(events + [Deliver] + [Deliver] + [Issue], Deliver,
            Link(2, false, [two, one, again], [], [0, 2], [Answered(1), Answered(2)]));
  }

  lemma EmptyRun()
    ensures Run([]) == Some(START)
  {
  }

  lemma IdsAnswer(one: Message, two: Message, again: Message)
    requires one.id == IntId(1) && two.id == IntId(2) && again.id == IntId(2)
    ensures !Answers(two, 1) && Answers(one, 1) && Answers(two, 2) && Answers(again, 2)
  {
  }

  lemma RunStep(events: seq<Event>, e: Event, t: Link)
    requires Run(events).Some? && Enabled(Run(events).value, e) && Next(Run(events).value, e) == t
    ensures Run(events + [e]) == Some(t)
  {
    assert (events + [e])[..|events|] == events;
  }

  // n deliveries in a row.
  function Delivered(s: Link, n: nat): Option<Link>
    decreases n
  {
    if n == 0 then Some(s)
    else if Enabled(s, Deliver) then Delivered(Next(s, Deliver), n - 1) else None
  }

  // The state after an open request got its first pending answer.
  function Finished(s: Link): Link
    requires FirstAnswer(s.pending, s.issued) < |s.pending|
  {
    var i := FirstAnswer(s.pending, s.issued);
    s.(waiting := false, endings := s.endings + [Answered(|s.consumed| + i)],
       consumed := s.consumed + s.pending[..i + 1], pending := s.pending[i + 1..])
  }

  /** The read loop of a request is a run of deliveries: while an answer is pending, delivering up
      to the first answer finishes the request with that message, consumes exactly the messages
      before it and leaves the rest pending. */
  lemma {:induction false} ReadLoopFinishes(s: Link)
    requires s.waiting && FirstAnswer(s.pending, s.issued) < |s.pending|
    ensures Delivered(s, FirstAnswer(s.pending, s.issued) + 1) == Some(Finished(s))
    decreases |s.pending|
  {
    hide Answers;
    var i := FirstAnswer(s.pending, s.issued);
    var t := Next(s, Deliver);
    if i == 0 {
      assert Delivered(t, 0) == Some(t);
      assert s.pending[..1] == [s.pending[0]];
    } else {
      ReadLoopFinishes(t);
      assert s.consumed + s.pending[..i + 1] == t.consumed + t.pending[..i];
      assert s.pending[i + 1..] == t.pending[i..];
    }
  }

  /** One open request, on bytes and on messages: while the stream carries the pending messages and
      one of them answers, the request can only end with the message that the run of deliveries ends
      with, and the stream left over carries the messages left pending. */
  lemma RequestOnBytes(json: JsonReader, fs: seq<Frame>, s: Link, a: Awaited, after: Bytes)
    requires s.waiting && FirstAnswer(s.pending, s.issued) < |s.pending| && CarriesAll(json, fs, s.pending)
    requires Awaits(json, EncodeAll(fs), s.issued, a, after)
    ensures var i := FirstAnswer(s.pending, s.issued);
            var t := Finished(s);
            && Delivered(s, i + 1) == Some(t)
            && a == Reply(t.consumed[t.endings[|t.endings| - 1].at])
            && after == EncodeAll(fs[i + 1..]) && CarriesAll(json, fs[i + 1..], t.pending)
  {
    hide Awaits, Carries, Delivered, EncodeAll;
    ReadLoopFinishes(s);
    AwaitOnFrames(json, fs, s.pending, s.issued, a, after);
  }

  // The next read of the stream raises and leaves the frames from `lost` on.
  ghost predicate RaisesAndLoses(json: JsonReader, stream: Bytes, fs: seq<Frame>, lost: nat) {
    lost <= |fs| && NextMessage(json, stream).Took? && NextMessage(json, stream).reading.Failed?
    && NextMessage(json, stream).rest == EncodeAll(fs[lost..])
  }

  /** The same for a read that raises: an open request can only end by raising, and the stream left
      over carries the messages that the raising step leaves pending. */
  lemma RaiseOnBytes(json: JsonReader, stream: Bytes, fs: seq<Frame>, s: Link, lost: nat, a: Awaited, after: Bytes)
    requires s.waiting && CarriesAll(json, fs, s.pending) && RaisesAndLoses(json, stream, fs, lost)
    requires Awaits(json, stream, s.issued, a, after)
    ensures Enabled(s, Raise(lost)) && a.Broken?
    ensures after == EncodeAll(fs[lost..]) && CarriesAll(json, fs[lost..], Next(s, Raise(lost)).pending)
  {
    hide NextMessage, Carries, EncodeAll;
    NextMessageProgress(json, stream);
  }

  /** And for a write that raises: the request has ended, its id is used up, another one can be issued,
      and the stream still carries the pending messages. */
  lemma WriteFailsOnBytes(json: JsonReader, dumps: JsonWriter, fs: seq<Frame>, s: Link, call: Outgoing,
                          before: Wire, after: Wire)
    requires !s.waiting && CarriesAll(json, fs, s.pending) && before.input == EncodeAll(fs)
    requires Asks(json, dumps, s.issued + 1, call, Failure(WriteFailed), before, after)
    ensures Enabled(s, IssueFails)
    ensures var t := Next(s, IssueFails);
            && t.issued == s.issued + 1 && Enabled(t, Issue)
            && t.endings == s.endings + [Raised(|s.consumed|)] && t.consumed == s.consumed
            && after.input == EncodeAll(fs) && CarriesAll(json, fs, t.pending)
  {
    hide Carries, EncodeAll, Sends;
  }

  // A line that is neither a message nor the start of a block.
  predicate BadLine(json: JsonReader, raw: Bytes) {
    && '\n' !in raw && !json(Strip(raw + "\n")).Object?
    && (ValidUtf8(raw + "\n") ==> !StartsBlock(Strip(raw + "\n")))
  }

  /** A bad line loses no message. */
  lemma BadLineLosesNone(json: JsonReader, raw: Bytes, fs: seq<Frame>)
    requires BadLine(json, raw)
    ensures RaisesAndLoses(json, raw + "\n" + EncodeAll(fs), fs, 0)
  {
    hide NextMessage, EncodeAll, StartsBlock, Strip, ValidUtf8;
    BadLineCostsOneLine(json, raw, EncodeAll(fs));
    assert fs[0..] == fs;
  }

  /** A header block whose length covers the next messages takes them for its body and loses them. */
  lemma BodyLosesMessages(json: JsonReader, hs: seq<Bytes>, blank: Bytes, fs: seq<Frame>, lost: nat)
    requires lost <= |fs| && OpensBlock(hs) && '\n' !in blank && Blank(blank)
    requires AnnouncesLength(hs, |EncodeAll(fs[..lost])|) && LoadBody(json, EncodeAll(fs[..lost])).Failed?
    ensures RaisesAndLoses(json, Lines(hs) + (blank + "\n" + EncodeAll(fs)), fs, lost)
  {
    hide NextMessage, EncodeAll, Lines, OpensBlock, AnnouncesLength, LoadBody, Blank;
    BlockBadBody(json, hs, blank, EncodeAll(fs[..lost]), EncodeAll(fs[lost..]));
    EncodeAllAppend(fs[..lost], fs[lost..]);
    assert fs[..lost] + fs[lost..] == fs;
  }

  /** One whose length goes beyond the end of the stream loses them all. */
  lemma BodyLosesAll(json: JsonReader, hs: seq<Bytes>, blank: Bytes, fs: seq<Frame>, n: nat)
    requires OpensBlock(hs) && '\n' !in blank && Blank(blank) && AnnouncesLength(hs, n) && |EncodeAll(fs)| < n
    ensures RaisesAndLoses(json, Lines(hs) + (blank + "\n" + EncodeAll(fs)), fs, |fs|)
  {
    hide NextMessage, AnnouncesLength, Blank, StartsBlock;
    TruncatedBody(json, hs, blank, n, EncodeAll(fs));
    assert fs[|fs|..] == [];
  }

  // A message on a line with a colon, as every member of an object has: it reads as a header, too.
  ghost predicate LineWithColon(json: JsonReader, f: Frame, m: Message) {
    Carries(json, f, m) && f.LineFrame? && ':' in f.payload
  }

  function RawLines(fs: seq<Frame>): seq<Bytes>
    requires forall i :: 0 <= i < |fs| ==> fs[i].LineFrame?
  {
    seq(|fs|, i requires 0 <= i < |fs| => fs[i].lead + fs[i].payload + fs[i].trail)
  }

  lemma {:induction false} RawLinesEncode(fs: seq<Frame>)
    requires forall i :: 0 <= i < |fs| ==> fs[i].LineFrame?
    ensures Lines(RawLines(fs)) == EncodeAll(fs)
  {
    if fs != [] {
      RawLinesEncode(fs[1..]);
      assert RawLines(fs)[1..] == RawLines(fs[1..]);
    }
  }

  lemma {:induction false} LinesAppend(a: seq<Bytes>, b: seq<Bytes>)
    ensures Lines(a + b) == Lines(a) + Lines(b)
  {
    if a == [] {
      assert a + b == b;
    } else {
      assert (a + b)[1..] == a[1..] + b;
      LinesAppend(a[1..], b);
    }
  }

  ghost predicate AllLinesWithColon(json: JsonReader, fs: seq<Frame>, ms: seq<Message>) {
    |fs| == |ms| && forall i :: 0 <= i < |fs| ==> LineWithColon(json, fs[i], ms[i])
  }

  // Header lines and then messages on lines: all of them are header lines.
  lemma MessagesAsHeaders(json: JsonReader, hs: seq<Bytes>, fs: seq<Frame>, ms: seq<Message>)
    requires OpensBlock(hs) && AllLinesWithColon(json, fs, ms)
    ensures OpensBlock(hs + RawLines(fs)) && Lines(hs + RawLines(fs)) == Lines(hs) + EncodeAll(fs)
  {
    hide StartsBlock, Lines, EncodeAll, IsHeader, Strip;
    var all := hs + RawLines(fs);
    forall i | 0 <= i < |all|
      ensures IsHeader(all[i])
    {
      if i >= |hs| {
        assert LineWithColon(json, fs[i - |hs|], ms[i - |hs|]);
        ColonLineIsHeader(json, fs[i - |hs|], ms[i - |hs|]);
      }
    }
    RawLinesEncode(fs);
    LinesAppend(hs, RawLines(fs));
  }

  lemma ColonLineIsHeader(json: JsonReader, f: Frame, m: Message)
    requires LineWithColon(json, f, m)
    ensures IsHeader(f.lead + f.payload + f.trail)
  {
    hide Strip, OneLine;
    PaddedLine(f.lead, f.payload, f.trail);
  }

  /** A header block without its blank line takes the messages behind it for headers, and loses those
      in front of the first line that is none. */
  lemma HeadersLoseMessages(json: JsonReader, hs: seq<Bytes>, line: Bytes, fs: seq<Frame>, ms: seq<Message>, lost: nat)
    requires OpensBlock(hs) && OneLine(line) && Strip(line) != "" && ':' !in Strip(line)
    requires lost <= |fs| == |ms| && AllLinesWithColon(json, fs[..lost], ms[..lost])
    ensures RaisesAndLoses(json, Lines(hs) + EncodeAll(fs[..lost]) + (line + "\n" + EncodeAll(fs[lost..])), fs, lost)
  {
    hide NextMessage, EncodeAll, Lines, OpensBlock, Carries, OneLine, Strip;
    MessagesAsHeaders(json, hs, fs[..lost], ms[..lost]);
    BlockMeetsBadHeader(json, hs + RawLines(fs[..lost]), line, EncodeAll(fs[lost..]));
  }

  /** When there is no such line it loses them all. */
  lemma HeadersLoseAll(json: JsonReader, hs: seq<Bytes>, fs: seq<Frame>, ms: seq<Message>)
    requires OpensBlock(hs) && AllLinesWithColon(json, fs, ms)
    ensures RaisesAndLoses(json, Lines(hs) + EncodeAll(fs), fs, |fs|)
  {
    hide NextMessage, Lines, OpensBlock, Carries, Encode;
    MessagesAsHeaders(json, hs, fs, ms);
    BlockNeverEnds(json, hs + RawLines(fs));
    assert fs[|fs|..] == [];
  }

  // The failing reads are bad pieces of any stream.
  lemma BadLineIsPiece(json: JsonReader, raw: Bytes)
    requires BadLine(json, raw)
    ensures exists e :: PieceIs(json, Bad(raw + "\n", e))
  {
    hide NextMessage, StartsBlock, Strip, ValidUtf8;
    var e := if !ValidUtf8(raw + "\n") then UndecodableLine
             else if json(Strip(raw + "\n")) == NonObject then NotAnObject else InvalidPayload;
    forall rest
      ensures NextMessage(json, raw + "\n" + rest) == Took(Failed(e), rest)
    {
      BadLineCostsOneLine(json, raw, rest);
    }
    assert PieceIs(json, Bad(raw + "\n", e));
  }

  lemma BadHeaderIsPiece(json: JsonReader, hs: seq<Bytes>, line: Bytes)
    requires OpensBlock(hs) && OneLine(line) && Strip(line) != "" && ':' !in Strip(line)
    ensures PieceIs(json, Bad(Lines(hs) + (line + "\n"), MalformedHeader))
  {
    hide NextMessage, OpensBlock, Lines, OneLine, Strip;
    forall rest
      ensures NextMessage(json, Lines(hs) + (line + "\n") + rest) == Took(Failed(MalformedHeader), rest)
    {
      BlockMeetsBadHeader(json, hs, line, rest);
      assert Lines(hs) + (line + "\n") + rest == Lines(hs) + (line + "\n" + rest);
    }
  }

  lemma UndecodableIsPiece(json: JsonReader, hs: seq<Bytes>, line: Bytes)
    requires OpensBlock(hs) && '\n' !in line && !ValidUtf8(line + "\n")
    ensures PieceIs(json, Bad(Lines(hs) + (line + "\n"), UndecodableHeader))
  {
    hide NextMessage, OpensBlock, Lines, ValidUtf8;
    forall rest
      ensures NextMessage(json, Lines(hs) + (line + "\n") + rest) == Took(Failed(UndecodableHeader), rest)
    {
      BlockMeetsUndecodable(json, hs, line, rest);
      assert Lines(hs) + (line + "\n") + rest == Lines(hs) + (line + "\n" + rest);
    }
  }

  lemma BadLengthIsPiece(json: JsonReader, hs: seq<Bytes>, blank: Bytes)
    requires OpensBlock(hs) && '\n' !in blank && Blank(blank)
    requires LENGTH_KEY in HeaderTable(hs, map[]) ==> ParseInt(HeaderTable(hs, map[])[LENGTH_KEY]) == None
    ensures PieceIs(json, Bad(Lines(hs) + (blank + "\n"), InvalidPayload))
  {
    hide NextMessage, StartsBlock, Lines, Blank, HeaderTable, ParseInt, Strip, IsHeader;
    forall rest
      ensures NextMessage(json, Lines(hs) + (blank + "\n") + rest) == Took(Failed(InvalidPayload), rest)
    {
      BlockBadLength(json, hs, blank, rest);
      assert Lines(hs) + (blank + "\n") + rest == Lines(hs) + (blank + "\n" + rest);
    }
  }

  lemma BadBodyIsPiece(json: JsonReader, hs: seq<Bytes>, blank: Bytes, body: Bytes)
    requires OpensBlock(hs) && AnnouncesLength(hs, |body|) && '\n' !in blank && Blank(blank)
    requires LoadBody(json, body).Failed?
    ensures PieceIs(json, Bad(Lines(hs) + (blank + "\n" + body), LoadBody(json, body).error))
  {
    hide NextMessage, OpensBlock, Lines, AnnouncesLength, Blank, LoadBody;
    var bytes := Lines(hs) + (blank + "\n" + body);
    forall rest
      ensures NextMessage(json, bytes + rest) == Took(Failed(LoadBody(json, body).error), rest)
    {
      BlockBadBody(json, hs, blank, body, rest);
      assert bytes + rest == Lines(hs) + (blank + "\n" + (body + rest));
    }
  }

  // ---------- the other direction: what the client writes ----------

  function SentFrames(dumps: JsonWriter, sent: seq<Outgoing>): seq<Frame> {
    seq(|sent|, i requires 0 <= i < |sent| => LineFrame("", dumps(sent[i]), ""))
  }

  // What is on stdin after these messages were written.
  function SentBytes(dumps: JsonWriter, sent: seq<Outgoing>): Bytes {
    if sent == [] then "" else Line(dumps, sent[0]) + SentBytes(dumps, sent[1..])
  }

  lemma {:induction false} SentIsFramed(dumps: JsonWriter, sent: seq<Outgoing>)
    ensures SentBytes(dumps, sent) == EncodeAll(SentFrames(dumps, sent))
  {
    hide Encode, Line;
    if sent != [] {
      SentIsFramed(dumps, sent[1..]);
      assert SentFrames(dumps, sent)[1..] == SentFrames(dumps, sent[1..]);
      LineIsFrame(dumps, sent[0]);
    }
  }

  lemma LineIsFrame(dumps: JsonWriter, m: Outgoing)
    ensures Line(dumps, m) == Encode(LineFrame("", dumps(m), ""))
  {
    assert "" + dumps(m) + "" == dumps(m);
  }

  lemma WrittenCarries(json: JsonReader, dumps: JsonWriter, m: Outgoing, message: Message)
    requires json(dumps(m)) == Object(message)
    ensures Carries(json, LineFrame("", dumps(m), ""), message)
  {
    var text := dumps(m);
    assert IsObjectText(text);
    AsciiUtf8(text);
    StripPad("", text, "");
    assert "" + text + "" == text;
  }

  /** Every line a client writes is one frame: a reader that parses what the writer prints reads
      the whole of stdin back as exactly the messages that were sent. */
  lemma WrittenReadsBack(json: JsonReader, dumps: JsonWriter, sent: seq<Outgoing>, meaning: Outgoing -> Message)
    requires forall m :: json(dumps(m)) == Object(meaning(m))
    ensures ReadAll(json, SentBytes(dumps, sent))
            == (seq(|sent|, i requires 0 <= i < |sent| => meaning(sent[i])), Took(Failed(ProcessExited), ""))
  {
    hide Carries, EncodeAll, SentBytes, ReadAll;
    var ms := seq(|sent|, i requires 0 <= i < |sent| => meaning(sent[i]));
    forall i | 0 <= i < |sent|
      ensures Carries(json, SentFrames(dumps, sent)[i], ms[i])
    {
      WrittenCarries(json, dumps, sent[i], ms[i]);
    }
    SentIsFramed(dumps, sent);
    RoundTrip(json, SentFrames(dumps, sent), ms);
  }
}
