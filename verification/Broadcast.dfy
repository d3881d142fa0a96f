/** Fetching a live broadcast from a relay: bounded retries, and packets in a fixed order. */
module Broadcasts {
  import opened Prelude

  const MAX_DELTAFRAME_RETRIES: nat := 5
  const MAX_TRANSIENT_RETRIES: nat := 10
  const TRANSIENT_RETRY_INITIAL_DELAY: nat := 500
  const TRANSIENT_RETRY_MAX_DELAY: nat := 10000
  const NOT_FOUND: nat := 404

  datatype Request = GetStart(fragment: int) | GetFull(fragment: int) | GetDelta(fragment: int)

  /** What comes of a request: a response, whose body may still fail to arrive; no response; or no
      request at all. */
  datatype Answer = Response(status: nat, body: Option<Bytes>) | NoResponse | NotBuilt

  datatype Error = StatusCode(status: nat) | HttpClientError | BuildRequestError

  datatype Result = Ok(body: Bytes) | Err(error: Error)

  predicate IsClientError(status: nat)
  {
    400 <= status < 500
  }

  predicate IsServerError(status: nat)
  {
    500 <= status < 600
  }

  function GetOnce(a: Answer): Result
  {
    match a
    case NotBuilt => Err(BuildRequestError)
    case NoResponse => Err(HttpClientError)
    case Response(status, body) =>
      if IsClientError(status) || IsServerError(status) then Err(StatusCode(status))
      else if body.None? then Err(HttpClientError)
      else Ok(body.value)
  }

  predicate IsTransient(e: Error)
  {
    match e
    case StatusCode(status) => IsServerError(status)
    case HttpClientError => true
    case BuildRequestError => false
  }

  /** The relay answers the n-th request with `relay(n)`. */
  type Relay = nat -> Answer

  /** A result and the number of requests made by then. */
  datatype Fetched = Fetched(result: Result, requests: nat)

  /** One fetch, after `attempt` transient failures of the same request. */
  function Get(relay: Relay, n: nat, attempt: nat): (r: Fetched)
    requires attempt <= MAX_TRANSIENT_RETRIES
    ensures n < r.requests <= n + 1 + (MAX_TRANSIENT_RETRIES - attempt)
    ensures r.result == GetOnce(relay(r.requests - 1))
    ensures forall k | n <= k < r.requests - 1 :: GetOnce(relay(k)).Err? && IsTransient(GetOnce(relay(k)).error)
    ensures r.result.Err? && IsTransient(r.result.error) ==> r.requests == n + 1 + (MAX_TRANSIENT_RETRIES - attempt)
    decreases MAX_TRANSIENT_RETRIES - attempt
  {
    var once := GetOnce(relay(n));
    if once.Err? && IsTransient(once.error) && attempt < MAX_TRANSIENT_RETRIES then Get(relay, n + 1, attempt + 1)
    else Fetched(once, n + 1)
  }

  lemma GetUnroll(relay: Relay, n: nat, attempt: nat)
    requires attempt <= MAX_TRANSIENT_RETRIES
    ensures var once := GetOnce(relay(n));
      Get(relay, n, attempt) ==
        if once.Err? && IsTransient(once.error) && attempt < MAX_TRANSIENT_RETRIES then Get(relay, n + 1, attempt + 1)
        else Fetched(once, n + 1)
  {
  }

  /** The pause before retry `attempt + 1`, in milliseconds: doubling, up to ten seconds. */
  function Delay(attempt: nat): (d: nat)
    ensures d <= TRANSIENT_RETRY_MAX_DELAY
  {
    if attempt == 0 then TRANSIENT_RETRY_INITIAL_DELAY
    else
      var next := Delay(attempt - 1) * 2;
      if next <= TRANSIENT_RETRY_MAX_DELAY then next else TRANSIENT_RETRY_MAX_DELAY
  }

  /** All pauses of `attempts` retries. */
  function Delays(attempts: nat): nat
  {
    if attempts == 0 then 0 else Delays(attempts - 1) + Delay(attempts - 1)
  }

  lemma {:induction false} DelaysGrow(a: nat, b: nat)
    requires a <= b
    ensures Delays(a) <= Delays(b)
  {
    if a < b {
      DelaysGrow(a, b - 1);
    }
  }

  /** 0.5 + 1 + 2 + 4 + 8 + 5 * 10 seconds. */
  lemma DelaysBounded(attempts: nat)
    requires attempts <= MAX_TRANSIENT_RETRIES
    ensures Delays(attempts) <= 65500
  {
    assert Delay(4) == 8000;
    assert Delay(5) == 10000 && Delays(5) == 15500;
    assert Delay(9) == 10000 && Delay(7) == 10000;
    assert Delays(7) == 35500;
    assert Delays(9) == 55500;
    DelaysGrow(attempts, 10);
  }

  // ---- the stream

  datatype Stage = Stop | Start | Fullframe | Deltaframes(retries: nat)

  /** The state apart from clocks: where in the order, which fragment, how many requests so far. */
  datatype Stream = Stream(stage: Stage, fragment: int, requests: nat)

  /** What a call of `next_packet` returns; a packet comes with the request it answers. */
  datatype Outcome = Packet(request: Request, body: Bytes) | Failure(error: Error) | Nothing

  datatype Step = Step(outcome: Outcome, stream: Stream)

  /** `handle_deltaframes`: a fragment that is not there yet is asked for again, five times at most. */
  function GetDeltas(relay: Relay, n: nat, retries: nat): (r: Fetched)
    ensures r.requests > n
    decreases MAX_DELTAFRAME_RETRIES - retries
  {
    hide Get, GetOnce;
    var r := Get(relay, n, 0);
    if r.result == Err(StatusCode(NOT_FOUND)) && retries < MAX_DELTAFRAME_RETRIES then
      GetDeltas(relay, r.requests, retries + 1)
    else r
  }

  lemma DeltasUnroll(relay: Relay, n: nat, retries: nat)
    ensures var r := Get(relay, n, 0);
      GetDeltas(relay, n, retries) ==
        if r.result == Err(StatusCode(NOT_FOUND)) && retries < MAX_DELTAFRAME_RETRIES then GetDeltas(relay,
            r.requests, retries + 1)
        else r
  {
  }

  lemma {:induction false} DeltasBounded(relay: Relay, n: nat, retries: nat)
    requires retries <= MAX_DELTAFRAME_RETRIES
    ensures GetDeltas(relay, n, retries).requests <= n + 11 * (1 + MAX_DELTAFRAME_RETRIES - retries)
    decreases MAX_DELTAFRAME_RETRIES - retries
  {
    hide Get, GetOnce;
    var r := Get(relay, n, 0);
    if r.result == Err(StatusCode(NOT_FOUND)) && retries < MAX_DELTAFRAME_RETRIES {
      DeltasBounded(relay, r.requests, retries + 1);
    }
  }

  /** The end of a call that failed: nothing more is ever fetched; a fragment that is gone ends the
      broadcast without an error. */
  function Failed(e: Error): Outcome
  {
    if e == StatusCode(NOT_FOUND) then Nothing else Failure(e)
  }

  function NextPacket(relay: Relay, signup: int, s: Stream): Step
  {
    if s.stage.Stop? then Step(Nothing, s)
    else
      var request := if s.stage.Start? then GetStart(signup) else if s.stage.Fullframe? then GetFull(s.fragment)
          else GetDelta(s.fragment);
      var r := if s.stage.Deltaframes? then GetDeltas(relay, s.requests, s.stage.retries)
          else Get(relay, s.requests, 0);
      match r.result
      case Err(e) => Step(Failed(e), s.(stage := Stop, requests := r.requests))
      case Ok(body) =>
        var stage := if s.stage.Start? then Fullframe else Deltaframes(0);
        var fragment := if s.stage.Deltaframes? then s.fragment + 1 else s.fragment;
        Step(Packet(request, body), Stream(stage, fragment, r.requests))
  }

  /** `calls` calls of `next_packet`. */
  function Outcomes(relay: Relay, signup: int, s: Stream, calls: nat): (r: seq<Outcome>)
    ensures |r| == calls
    decreases calls
  {
    if calls == 0 then []
    else
      var step := NextPacket(relay, signup, s);
      [step.outcome] + Outcomes(relay, signup, step.stream, calls - 1)
  }

  /** The order of a broadcast that starts at fragment `f`. */
  function InOrder(signup: int, f: int, i: nat): Request
  {
    if i == 0 then GetStart(signup) else if i == 1 then GetFull(f) else GetDelta(f + (i - 2))
  }

  /** The state after `i` packets in a row. */
  ghost predicate After(s: Stream, f: int, i: nat)
  {
    match i
    case 0 => s.stage.Start? && s.fragment == f
    case 1 => s.stage.Fullframe? && s.fragment == f
    case _ => s.stage == Deltaframes(0) && s.fragment == f + (i - 2)
  }

  lemma NextInOrder(relay: Relay, signup: int, s: Stream, f: int, i: nat)
    requires After(s, f, i)
    ensures var step := NextPacket(relay, signup, s);
      if step.outcome.Packet? then step.outcome.request == InOrder(signup, f, i) && After(step.stream, f, i + 1)
      else step.stream.stage.Stop?
  {
  }

  lemma {:induction false} NothingAfterStop(relay: Relay, signup: int, s: Stream, calls: nat)
    requires s.stage.Stop?
    ensures forall k | 0 <= k < calls :: Outcomes(relay, signup, s, calls)[k] == Nothing
  {
    if calls > 0 {
      NothingAfterStop(relay, signup, s, calls - 1);
    }
  }

  /** The number of packets before the first call without one. */
  function Packets(outcomes: seq<Outcome>): nat
  {
    if outcomes == [] || !outcomes[0].Packet? then 0 else 1 + Packets(outcomes[1..])
  }

  /** Some number of packets in order, then at most one error, then nothing. */
  ghost predicate Ordered(outcomes: seq<Outcome>, signup: int, f: int, i: nat, packets: nat)
  {
    && packets <= |outcomes|
    && (forall k | 0 <= k < packets :: outcomes[k].Packet? && outcomes[k].request == InOrder(signup, f, i + k))
    && (packets < |outcomes| ==> !outcomes[packets].Packet?)
    && (forall k | packets < k < |outcomes| :: outcomes[k] == Nothing)
  }

  lemma OutcomesNext(relay: Relay, signup: int, s: Stream, calls: nat)
    requires calls > 0
    ensures var step := NextPacket(relay, signup, s);
      Outcomes(relay, signup, s, calls) == [step.outcome] + Outcomes(relay, signup, step.stream, calls - 1)
  {
    hide NextPacket;
  }

  lemma NoneOrdered(signup: int, f: int, i: nat)
    ensures Ordered([], signup, f, i, 0)
  {
  }

  lemma {:induction false} OutcomesOrdered(relay: Relay, signup: int, s: Stream, f: int, i: nat, calls: nat)
    requires After(s, f, i)
    ensures var outcomes := Outcomes(relay, signup, s, calls); Ordered(outcomes, signup, f, i, Packets(outcomes))
    decreases calls
  {
    hide After, NextPacket, InOrder, Ordered, Outcomes;
    if calls == 0 {
      NoneOrdered(signup, f, i);
    } else {
      NextInOrder(relay, signup, s, f, i);
      OutcomesNext(relay, signup, s, calls);
      var step := NextPacket(relay, signup, s);
      var later := Outcomes(relay, signup, step.stream, calls - 1);
      var all := [step.outcome] + later;
      assert all[1..] == later;
      if step.outcome.Packet? {
        OutcomesOrdered(relay, signup, step.stream, f, i + 1, calls - 1);
        OneMore(step.outcome, later, signup, f, i, Packets(later));
      } else {
        NothingAfterStop(relay, signup, step.stream, calls - 1);
        NoMore(step.outcome, later, signup, f, i);
      }
    }
  }

  lemma NoMore(first: Outcome, later: seq<Outcome>, signup: int, f: int, i: nat)
    requires !first.Packet? && forall k | 0 <= k < |later| :: later[k] == Nothing
    ensures Ordered([first] + later, signup, f, i, 0)
  {
  }

  lemma OneMore(first: Outcome, later: seq<Outcome>, signup: int, f: int, i: nat, packets: nat)
    requires first.Packet? && first.request == InOrder(signup, f, i) && Ordered(later, signup, f, i + 1, packets)
    ensures Ordered([first] + later, signup, f, i, packets + 1)
  {
  }

  /** For every sequence of relay answers and any number of calls: the packets are a prefix of
      start(signup), full(f), delta(f), delta(f + 1), ... without gap or repeat; after the first call
      without a packet every call returns nothing. */
  lemma PacketsInOrder(relay: Relay, signup: int, f: int, calls: nat)
    ensures var outcomes := Outcomes(relay, signup, Stream(Start, f, 0), calls);
      Ordered(outcomes, signup, f, 0, Packets(outcomes))
  {
    OutcomesOrdered(relay, signup, Stream(Start, f, 0), f, 0, calls);
  }

  /** One call makes at most 66 requests; a packet is the answer to the last of them. */
  lemma CallBounded(relay: Relay, signup: int, s: Stream)
    requires s.stage.Deltaframes? ==> s.stage.retries <= MAX_DELTAFRAME_RETRIES
    ensures var step := NextPacket(relay, signup, s);
      && s.requests <= step.stream.requests <= s.requests + 66
      && (step.outcome.Packet? ==>
            step.stream.requests > s.requests && GetOnce(relay(step.stream.requests - 1)) == Ok(step.outcome.body))
  {
    hide Get, GetDeltas, GetOnce;
    if s.stage.Deltaframes? {
      DeltasBounded(relay, s.requests, s.stage.retries);
      DeltasAnswer(relay, s.requests, s.stage.retries);
    }
  }

  lemma {:induction false} DeltasAnswer(relay: Relay, n: nat, retries: nat)
    ensures var r := GetDeltas(relay, n, retries); r.result == GetOnce(relay(r.requests - 1))
    decreases MAX_DELTAFRAME_RETRIES - retries
  {
    hide Get, GetOnce;
    var r := Get(relay, n, 0);
    if r.result == Err(StatusCode(NOT_FOUND)) && retries < MAX_DELTAFRAME_RETRIES {
      DeltasAnswer(relay, r.requests, retries + 1);
    }
  }
}

/** The client and the stream as objects. */
module BroadcastObjects {
  import opened Prelude
  import B = Broadcasts
  import opened Broadcasts

  /** From `before` on, only `request` was made. */
  ghost predicate OnlyAsked(before: seq<Request>, after: seq<Request>, request: Request)
  {
    before <= after && forall k | |before| <= k < |after| :: after[k] == request
  }

  lemma OnlyAskedMore(a: seq<Request>, b: seq<Request>, c: seq<Request>, request: Request)
    requires OnlyAsked(a, b, request) && OnlyAsked(b, c, request)
    ensures OnlyAsked(a, c, request)
  {
    assert a == b[..|a|] && b == c[..|b|];
  }

  lemma OnlyAskedNothing(a: seq<Request>, request: Request)
    ensures OnlyAsked(a, a, request)
  {
  }

  lemma OnlyAskedOne(a: seq<Request>, b: seq<Request>, request: Request)
    requires OnlyAsked(a, b, request)
    ensures OnlyAsked(a, b + [request], request)
  {
  }

  lemma DelayNext(attempt: nat)
    ensures Delay(0) == TRANSIENT_RETRY_INITIAL_DELAY && Delays(0) == 0
    ensures var next := Delay(attempt) * 2;
      Delay(attempt + 1) == if next <= TRANSIENT_RETRY_MAX_DELAY then next else TRANSIENT_RETRY_MAX_DELAY
    ensures Delays(attempt + 1) == Delays(attempt) + Delay(attempt)
  {
  }

  class BroadcastHttpClient {
    const relay: Relay
    /** The requests made, in order. */
    var requests: seq<Request>
    /** The time slept between retries of the last fetch, in milliseconds. */
    var slept: nat

    constructor (relay: Relay)
      ensures this.relay == relay && requests == []
    {
      this.relay, requests, slept := relay, [], 0;
    }

    method Execute(request: Request) returns (a: Answer)
      modifies this`requests
      ensures a == relay(|old(requests)|) && requests == old(requests) + [request]
    {
      a := relay(|requests|);
      requests := requests + [request];
    }

    /** Only the given request is made; transient failures are retried with growing pauses. */
    method Get(request: Request) returns (r: Result)
      modifies this
      ensures var spec := B.Get(relay, |old(requests)|, 0); r == spec.result && |requests| == spec.requests
      ensures OnlyAsked(old(requests), requests, request)
      ensures slept == Delays(|requests| - |old(requests)| - 1) <= 65500
    {
      hide Delay, Delays, B.Get, GetOnce, IsTransient, OnlyAsked;
      OnlyAskedNothing(requests, request);
      DelayNext(0);
      slept := 0;
      var delay := TRANSIENT_RETRY_INITIAL_DELAY;
      var attempt := 0;
      while true
        invariant attempt <= MAX_TRANSIENT_RETRIES && delay == Delay(attempt) && slept == Delays(attempt)
        invariant B.Get(relay, |requests|, attempt) == B.Get(relay, |old(requests)|, 0)
        invariant OnlyAsked(old(requests), requests, request) && |requests| == |old(requests)| + attempt
        decreases MAX_TRANSIENT_RETRIES - attempt
      {
        DelaysBounded(attempt);
        DelayNext(attempt);
        GetUnroll(relay, |requests|, attempt);
        OnlyAskedOne(old(requests), requests, request);
        var answer := Execute(request);
        r := GetOnce(answer);
        if r.Err? && IsTransient(r.error) && attempt < MAX_TRANSIENT_RETRIES {
          attempt := attempt + 1;
          slept := slept + delay;
          delay := if delay * 2 <= TRANSIENT_RETRY_MAX_DELAY then delay * 2 else TRANSIENT_RETRY_MAX_DELAY;
        } else {
          return;
        }
      }
    }
  }

  /** `fetchAfter` is in milliseconds of the same clock as `now`. */
  datatype StreamState = Stop | Start | Fullframe | Deltaframes(numRetries: nat, fetchAfter: int, catchup: bool)

  class BroadcastHttp {
    const client: BroadcastHttpClient
    const signupFragment: int
    const keyframeInterval: nat
    /** The clock: any readings at all. */
    const clock: nat -> int
    var readings: nat
    var streamFragment: int
    var streamState: StreamState
    var last: Option<Bytes>

    ghost predicate Valid()
      reads this
    {
      streamState.Deltaframes? ==> streamState.numRetries <= MAX_DELTAFRAME_RETRIES
    }

    ghost function View(): Stream
      reads this, client
    {
      Stream(match streamState
             case Stop => Stage.Stop
             case Start => Stage.Start
             case Fullframe => Stage.Fullframe
             case Deltaframes(n, _, _) => Stage.Deltaframes(n),
             streamFragment, |client.requests|)
    }

    /** The sync response names the fragments; a negative signup fragment aborts later. */
    constructor (relay: Relay, fragment: int, signupFragment: int, keyframeInterval: nat, clock: nat -> int)
      requires signupFragment >= 0
      ensures Valid() && fresh(client) && View() == Stream(Stage.Start, fragment, 0)
      ensures client.relay == relay && this.signupFragment == signupFragment
    {
      client := new BroadcastHttpClient(relay);
      this.signupFragment, this.keyframeInterval, this.clock := signupFragment, keyframeInterval, clock;
      readings, streamFragment, streamState, last := 0, fragment, StreamState.Start, None;
    }

    method Now() returns (t: int)
      modifies this`readings
    {
      t := clock(readings);
      readings := readings + 1;
    }

    method HandleStart() returns (r: Result)
      requires streamState.Start?
      modifies this`streamState, client
      ensures var spec := B.Get(client.relay, |old(client.requests)|, 0);
        r == spec.result && |client.requests| == spec.requests
      ensures streamState == if r.Ok? then StreamState.Fullframe else StreamState.Start
      ensures OnlyAsked(old(client.requests), client.requests, GetStart(signupFragment))
    {
      r := client.Get(GetStart(signupFragment));
      if r.Ok? {
        streamState := StreamState.Fullframe;
      }
    }

    method HandleFullframe() returns (r: Result)
      requires streamState.Fullframe?
      modifies this`streamState, this`readings, client
      ensures var spec := B.Get(client.relay, |old(client.requests)|, 0);
        r == spec.result && |client.requests| == spec.requests
      ensures if r.Ok? then streamState.Deltaframes? && streamState.numRetries == 0 else streamState.Fullframe?
      ensures OnlyAsked(old(client.requests), client.requests, GetFull(streamFragment))
    {
      r := client.Get(GetFull(streamFragment));
      if r.Ok? {
        var now := Now();
        streamState := StreamState.Deltaframes(0, now, true);
      }
    }

    /** Whatever the clock says, the same requests are made. */
    method HandleDeltaframes() returns (r: Result)
      requires Valid() && streamState.Deltaframes?
      modifies this`streamState, this`readings, this`streamFragment, client
      ensures Valid() && streamState.Deltaframes?
      ensures var spec := GetDeltas(client.relay, |old(client.requests)|, old(streamState).numRetries);
        r == spec.result && |client.requests| == spec.requests
      ensures streamFragment == if r.Ok? then old(streamFragment) + 1 else old(streamFragment)
      ensures r.Ok? ==> streamState.numRetries == 0
      ensures OnlyAsked(old(client.requests), client.requests, GetDelta(old(streamFragment)))
    {
      hide B.Get, GetDeltas, OnlyAsked;
      OnlyAskedNothing(client.requests, GetDelta(streamFragment));
      while true
        invariant Valid() && streamState.Deltaframes? && streamFragment == old(streamFragment)
        invariant GetDeltas(client.relay, |client.requests|, streamState.numRetries)
               == GetDeltas(client.relay, |old(client.requests)|, old(streamState).numRetries)
        invariant OnlyAsked(old(client.requests), client.requests, GetDelta(streamFragment))
        decreases MAX_DELTAFRAME_RETRIES - streamState.numRetries, !streamState.catchup
      {
        var numRetries, fetchAfter := streamState.numRetries, streamState.fetchAfter;
        if !streamState.catchup {
          var now := Now();
          if now > fetchAfter {
            streamState := streamState.(catchup := true);
            continue;
          }
        }
        var start := Now();
        DeltasUnroll(client.relay, |client.requests|, numRetries);
        ghost var before := client.requests;
        r := client.Get(GetDelta(streamFragment));
        OnlyAskedMore(old(client.requests), before, client.requests, GetDelta(streamFragment));
        if r.Ok? {
          streamFragment := streamFragment + 1;
          streamState := StreamState.Deltaframes(0, start + keyframeInterval, streamState.catchup);
          return;
        }
        if r.error != StatusCode(NOT_FOUND) || numRetries >= MAX_DELTAFRAME_RETRIES { return; }
        streamState := StreamState.Deltaframes(numRetries + 1, start + keyframeInterval, false);
      }
    }

    /** The next packet; at most 66 requests, all for it. */
    method NextPacket() returns (r: Option<Result>)
      requires Valid()
      modifies this, client
      ensures Valid()
      ensures var step := B.NextPacket(client.relay, signupFragment, old(View()));
        && View() == step.stream
        && match step.outcome
           case Packet(request, body) => 
             && r == Some(Ok(body)) && last == Some(body)
             && OnlyAsked(old(client.requests), client.requests, request)
           case Failure(e) => r == Some(Err(e)) && last == old(last)
           case Nothing => r == None && last == old(last)
      ensures |client.requests| <= |old(client.requests)| + 66
    {
      hide B.Get, GetDeltas;
      CallBounded(client.relay, signupFragment, View());
      var result: Result;
      match streamState {
        case Stop => return None;
        case Start => result := HandleStart();
        case Fullframe => result := HandleFullframe();
        case Deltaframes(_, _, _) => result := HandleDeltaframes();
      }
      match result
      case Ok(packet) =>
        last := Some(packet);
        r := Some(Ok(packet));
      case Err(e) =>
        streamState := StreamState.Stop;
        r := if e == StatusCode(NOT_FOUND) then None else Some(Err(e));
    }
  }
}
