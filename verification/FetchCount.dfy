/** How many requests a fetch makes, in numbers: by what the relay answers, status class by status class. */
module FetchCounts {
  import opened Prelude
  import opened Broadcasts

  /** Asked again: no response, a server error (section 15.6 of RFC 9110), or a body that never arrives.
      A client error (section 15.5) stands, with or without its body. */
  predicate Retried(a: Answer)
  {
    match a
    case NotBuilt => false
    case NoResponse => true
    case Response(status, body) => 500 <= status <= 599 || (body.None? && !(400 <= status <= 499))
  }

  /** What the caller is given for an answer. */
  function Given(a: Answer): Result
  {
    match a
    case NotBuilt => Err(BuildRequestError)
    case NoResponse => Err(HttpClientError)
    case Response(status, body) =>
      if 400 <= status <= 599 then Err(StatusCode(status))
      else if body.Some? then Ok(body.value)
      else Err(HttpClientError)
  }

  lemma AnswerIs(a: Answer)
    ensures GetOnce(a) == Given(a)
    ensures Retried(a) <==> GetOnce(a).Err? && IsTransient(GetOnce(a).error)
  {
  }

  lemma {:induction false} FetchFrom(relay: Relay, n: nat, attempt: nat, k: nat)
    requires attempt + k <= 10 && (forall j | n <= j < n + k :: Retried(relay(j)))
    requires attempt + k == 10 || !Retried(relay(n + k))
    ensures Get(relay, n, attempt) == Fetched(Given(relay(n + k)), n + k + 1)
    decreases k
  {
    hide Get, GetOnce, IsTransient, Retried, Given;
    GetUnroll(relay, n, attempt);
    AnswerIs(relay(n));
    if k > 0 {
      assert Retried(relay(n));
      FetchFrom(relay, n + 1, attempt + 1, k - 1);
    }
  }

  /** A fetch ends with the first answer that is not retried, and otherwise with the eleventh. */
  lemma FetchIs(relay: Relay, n: nat, k: nat)
    requires k <= 10 && forall j | n <= j < n + k :: Retried(relay(j))
    requires k == 10 || !Retried(relay(n + k))
    ensures Get(relay, n, 0) == Fetched(Given(relay(n + k)), n + k + 1)
  {
    FetchFrom(relay, n, 0, k);
  }

  /** When every answer has one status: eleven requests for a server error, one for a client error; for any other
      status one if its body arrives and eleven if it does not. */
  lemma RequestsByStatus(relay: Relay, n: nat, status: nat, body: Option<Bytes>)
    requires forall j: nat | n <= j :: relay(j) == Response(status, body)
    ensures var r := Get(relay, n, 0);
      && (500 <= status <= 599 ==> r == Fetched(Err(StatusCode(status)), n + 11))
      && (400 <= status <= 499 ==> r == Fetched(Err(StatusCode(status)), n + 1))
      && (!(400 <= status <= 599) && body.Some? ==> r == Fetched(Ok(body.value), n + 1))
      && (!(400 <= status <= 599) && body.None? ==> r == Fetched(Err(HttpClientError), n + 11))
  {
    hide Get;
    var k := if Retried(Response(status, body)) then 10 else 0;
    assert relay(n + k) == Response(status, body);
    FetchIs(relay, n, k);
  }

  /** Without a response there are eleven requests; one that cannot be built is not tried again. */
  lemma RequestsWithoutResponse(relay: Relay, n: nat)
    requires relay(n) == NotBuilt || forall j: nat | n <= j :: relay(j) == NoResponse
    ensures Get(relay, n, 0) ==
      if relay(n) == NotBuilt then Fetched(Err(BuildRequestError), n + 1) else Fetched(Err(HttpClientError), n + 11)
  {
    hide Get;
    var k := if relay(n) == NotBuilt then 0 else 10;
    assert k == 10 ==> relay(n + k) == NoResponse;
    FetchIs(relay, n, k);
  }

  predicate Missing(a: Answer) { a.Response? && a.status == 404 }

  lemma {:induction false} DeltaFrom(relay: Relay, n: nat, retries: nat, k: nat)
    requires retries + k <= 5 && (forall j | n <= j < n + k :: Missing(relay(j)))
    requires !Retried(relay(n + k)) && (retries + k == 5 || !Missing(relay(n + k)))
    ensures GetDeltas(relay, n, retries) == Fetched(Given(relay(n + k)), n + k + 1)
    decreases k
  {
    hide Get, GetDeltas;
    DeltasUnroll(relay, n, retries);
    assert k > 0 ==> Missing(relay(n));
    FetchIs(relay, n, 0);
    if k > 0 {
      DeltaFrom(relay, n + 1, retries + 1, k - 1);
    }
  }

  /** A fragment that is not there yet is asked for up to six times, and the sixth 404 ends the broadcast. */
  lemma MissingFragmentEnds(relay: Relay, signup: int, s: Stream)
    requires s.stage == Deltaframes(0) && forall j | s.requests <= j < s.requests + 6 :: Missing(relay(j))
    ensures NextPacket(relay, signup, s) == Step(Nothing, Stream(Stop, s.fragment, s.requests + 6))
  {
    hide Get, GetDeltas;
    assert Missing(relay(s.requests + 5));
    DeltaFrom(relay, s.requests, 0, 5);
  }

  /** A fragment that is there after up to five times that it was not is delivered, and the next one follows. */
  lemma LateFragmentArrives(relay: Relay, signup: int, s: Stream, k: nat, status: nat, body: Bytes)
    requires s.stage == Deltaframes(0) && k <= 5 && forall j | s.requests <= j < s.requests + k :: Missing(relay(j))
    requires relay(s.requests + k) == Response(status, Some(body)) && !(400 <= status <= 599)
    ensures NextPacket(relay, signup, s)
         == Step(Packet(GetDelta(s.fragment), body), Stream(Deltaframes(0), s.fragment + 1, s.requests + k + 1))
  {
    hide Get, GetDeltas;
    DeltaFrom(relay, s.requests, 0, k);
  }

  /** The pauses in milliseconds before the first ten retries. */
  const PAUSES: seq<nat> := [500, 1000, 2000, 4000, 8000, 10000, 10000, 10000, 10000, 10000]

  lemma PausesAre(k: nat)
    requires k < 10
    ensures Delay(k) == PAUSES[k] && Delays(k + 1) == Delays(k) + PAUSES[k] && Delays(0) == 0
  {
    assert Delay(0) == 500 && Delay(1) == 1000 && Delay(2) == 2000;
    assert Delay(4) == 8000;
    assert Delay(5) == 10000;
    assert Delay(7) == 10000;
    assert Delay(9) == 10000;
  }
}
