/** The retry loop around every REST request. */
module RetryLoop {
  /** What one attempt meets: a transport error, or a response with a status and, when its body is
      JSON, whether that is an object. */
  datatype Attempt = TransportError | Response(status: int, body: Body)

  datatype Body = ObjectBody(text: string) | OtherJson(text: string) | NotJson

  datatype Result =
    | Payload(text: string)
    | Wrapped(text: string)
    | TransportFailure
    | StatusFailure(status: int)
    | BadBody
    | Exhausted

  predicate RetryStatus(status: int) {
    status == 429 || 500 <= status < 600
  }

  // An attempt worth repeating.
  predicate Transient(a: Attempt) {
    a.TransportError? || RetryStatus(a.status)
  }

  predicate IsError(status: int) {
    400 <= status <= 599
  }

  // What the caller gets when this attempt is the last one made.
  function Final(a: Attempt): Result {
    match a
    case TransportError => TransportFailure
    case Response(status, body) =>
      if IsError(status) then StatusFailure(status)
      else match body
           case ObjectBody(text) => Payload(text)
           case OtherJson(text) => Wrapped(text)
           case NotJson => BadBody
  }

  // The position of the first attempt that is not transient, or `limit` when the first `limit` all are.
  function FirstSettled(trace: nat -> Attempt, limit: nat): (k: nat)
    ensures k <= limit
    ensures forall i: nat :: i < k ==> Transient(trace(i))
    ensures k < limit ==> !Transient(trace(k))
  {
    if limit == 0 then 0
    else
      var k := FirstSettled(trace, limit - 1);
      if k < limit - 1 then k else if Transient(trace(k)) then limit else k
  }

  // The first n sleeps: each is one backoff longer than the one before.
  function Sleeps(backoff: real, n: nat): (xs: seq<real>)
    ensures |xs| == n
    decreases n
  {
    if n == 0 then [] else Sleeps(backoff, n - 1) + [Times(backoff, n)]
  }

  // n times the backoff.
  function Times(backoff: real, n: nat): real
    decreases n
  {
    if n == 0 then 0.0 else Times(backoff, n - 1) + backoff
  }

  lemma {:induction false} TimesIsProduct(backoff: real, n: nat)
    ensures Times(backoff, n) == backoff * n as real
    decreases n
  {
    if n > 0 {
      TimesIsProduct(backoff, n - 1);
      Distribute(backoff, (n - 1) as real, 1.0);
      assert (n - 1) as real + 1.0 == n as real;
    }
  }

  method Delay(backoff: real, attempt: nat) returns (seconds: real)
    ensures seconds == Times(backoff, attempt + 1)
  {
    TimesIsProduct(backoff, attempt + 1);
    seconds := backoff * (attempt + 1) as real;
  }

  function Sum(xs: seq<real>): real {
    if xs == [] then 0.0 else Sum(xs[..|xs| - 1]) + xs[|xs| - 1]
  }

  /** The result is that of attempt min(k, attempts - 1), where k is the first settled one; one
      request more is made than there are sleeps; and the failure after the loop is reached exactly
      when no attempt is allowed at all. */
  method RequestJson(trace: nat -> Attempt, attempts: int, backoff: real)
    returns (r: Result, requests: nat, sleeps: seq<real>)
    ensures attempts <= 0 <==> r == Exhausted
    ensures attempts <= 0 ==> requests == 0 && sleeps == []
    ensures attempts >= 1 ==>
              var last := FirstSettled(trace, attempts - 1);
              r == Final(trace(last)) && requests == last + 1 && sleeps == Sleeps(backoff, last)
  {
    requests, sleeps := 0, [];
    var attempt := 0;
    while attempt < attempts
      invariant attempt >= 0 && (attempts >= 1 ==> attempt < attempts) && (attempts <= 0 ==> attempt == 0)
      invariant requests == attempt && sleeps == Sleeps(backoff, attempt)
      invariant forall i: nat :: i < attempt ==> Transient(trace(i))
      decreases attempts - attempt
    {
      var outcome := trace(attempt);
      requests := requests + 1;
      if outcome.TransportError? {
        if attempt < attempts - 1 {
          var seconds := Delay(backoff, attempt);
          sleeps := sleeps + [seconds];
          attempt := attempt + 1;
          continue;
        }
        SettledIs(trace, attempts - 1, attempt);
        return TransportFailure, requests, sleeps;
      }
      if outcome.status == 429 || 500 <= outcome.status < 600 {
        if attempt < attempts - 1 {
          var seconds := Delay(backoff, attempt);
          sleeps := sleeps + [seconds];
          attempt := attempt + 1;
          continue;
        }
      }
      SettledIs(trace, attempts - 1, attempt);
      if IsError(outcome.status) {
        return StatusFailure(outcome.status), requests, sleeps;
      }
      match outcome.body
      case ObjectBody(text) => return Payload(text), requests, sleeps;
      case OtherJson(text) => return Wrapped(text), requests, sleeps;
      case NotJson => return BadBody, requests, sleeps;
    }
    r := Exhausted;
  }

  lemma SettledIs(trace: nat -> Attempt, limit: nat, k: nat)
    requires k <= limit && forall i: nat :: i < k ==> Transient(trace(i))
    requires k == limit || !Transient(trace(k))
    ensures FirstSettled(trace, limit) == k
  {
  }

  lemma {:induction false} TimesAdd(backoff: real, m: nat, n: nat)
    ensures Times(backoff, m + n) == Times(backoff, m) + Times(backoff, n)
    decreases n
  {
    if n > 0 {
      TimesAdd(backoff, m, n - 1);
    }
  }

  lemma {:induction false} SleepSum(backoff: real, n: nat)
    ensures Sum(Sleeps(backoff, n)) == Times(backoff, Triangular(n))
    decreases n
  {
    if n > 0 {
      SleepSum(backoff, n - 1);
      var xs := Sleeps(backoff, n);
      assert xs[..n - 1] == Sleeps(backoff, n - 1);
      TimesAdd(backoff, Triangular(n - 1), n);
    }
  }

  /** After n retries the total sleep is the backoff times the n-th triangular number. */
  lemma SleepTotal(backoff: real, n: nat)
    ensures Sum(Sleeps(backoff, n)) == backoff * (n * (n + 1) / 2) as real
  {
    hide Sum, Sleeps, Times, Triangular;
    SleepSum(backoff, n);
    var total := n * (n + 1) / 2;
    assert Triangular(n) == total by {
      TriangularClosed(n);
    }
    TimesIsProduct(backoff, total);
  }

  // 1 + 2 + ... + n
  function Triangular(n: nat): nat {
    if n == 0 then 0 else Triangular(n - 1) + n
  }

  lemma {:induction false} TriangularClosed(n: nat)
    ensures Triangular(n) == n * (n + 1) / 2
  {
    if n > 0 {
      TriangularClosed(n - 1);
      assert n * (n + 1) == (n - 1) * n + 2 * n;
    }
  }

  lemma Distribute(b: real, x: real, y: real)
    ensures b * (x + y) == b * x + b * y
  {
  }

  /** A final result that reports a retryable status or a transport error means that every allowed
      attempt was made and met only transient outcomes. */
  lemma TransientResultMeansAllTried(trace: nat -> Attempt, attempts: nat)
    requires attempts >= 1
    ensures var last := FirstSettled(trace, attempts - 1);
            Transient(trace(last)) <==> forall i: nat :: i < attempts ==> Transient(trace(i))
  {
    var last := FirstSettled(trace, attempts - 1);
    assert last <= attempts - 1;
  }

  // The answer to attempt i says: too many requests, or a failure of the server.
  predicate Overloaded(trace: nat -> Attempt, i: nat) {
    var a := trace(i);
    a.Response? && (a.status == 429 || 500 <= a.status <= 599)
  }

  /** Which attempts are repeated: one that met a transport error, status 429 or a status of 500 to 599,
      and no other, as long as attempts are left. */
  lemma RepeatedIff(trace: nat -> Attempt, attempts: nat, i: nat)
    requires i < attempts
    ensures var last := FirstSettled(trace, attempts - 1);
            i < last <==> i < attempts - 1 && forall j: nat :: j <= i ==> trace(j).TransportError? || Overloaded(trace, j)
  {
    var last := FirstSettled(trace, attempts - 1);
    assert forall j: nat :: Transient(trace(j)) <==> trace(j).TransportError? || Overloaded(trace, j);
  }

  /** What the last attempt made returns: an error for a status of 400 to 599 and for a transport error,
      and otherwise the body, an object as it is and other JSON wrapped; a body that is no JSON is an
      error. So a client error other than 429 fails at once. */
  lemma LastAttemptReturns(trace: nat -> Attempt, attempts: nat)
    requires attempts >= 1
    ensures var last := FirstSettled(trace, attempts - 1);
            var a, r := trace(last), Final(trace(last));
            && (a.TransportError? <==> r == TransportFailure)
            && (a.Response? ==> (400 <= a.status <= 599 <==> r == StatusFailure(a.status)))
            && (a.Response? && !(400 <= a.status <= 599) ==>
                  && (a.body.ObjectBody? ==> r == Payload(a.body.text))
                  && (a.body.OtherJson? ==> r == Wrapped(a.body.text))
                  && (a.body.NotJson? ==> r == BadBody))
    ensures trace(0).Response? && 400 <= trace(0).status <= 499 && trace(0).status != 429 ==>
              FirstSettled(trace, attempts - 1) == 0
  {
    if trace(0).Response? && 400 <= trace(0).status <= 499 && trace(0).status != 429 {
      assert !Transient(trace(0));
    }
  }
}
