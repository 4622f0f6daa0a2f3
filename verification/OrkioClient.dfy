/** The upstream client: its retry loop and its circuit breaker. */
module OrkioClient {
  import opened LeaseConfig
  import opened Wrappers

  // ----- classify_http_failure

  datatype FailureClass = AuthTerminal | ContractTerminal | RetryableTransient | UpstreamTerminal

  function Classify(status: int): FailureClass {
    if status in {401, 403} then AuthTerminal
    else if status in {400, 404, 409, 410, 412, 415, 422} then ContractTerminal
    else if status in {408, 429, 502, 503, 504} then RetryableTransient
    else UpstreamTerminal
  }

  // ----- the circuit breaker, against its history

  /** Cleared: a success, or a call let through after the cooldown. */
  datatype CircuitEvent = Cleared | Failed(at: real)

  /** The times of the failures since the circuit was last cleared. */
  function FailureTimes(history: seq<CircuitEvent>): seq<real> {
    if history == [] then []
    else
      var before := history[..|history| - 1];
      match history[|history| - 1]
      case Cleared => []
      case Failed(at) => FailureTimes(before) + [at]
  }

  function LatestFailure(history: seq<CircuitEvent>): real {
    var times := FailureTimes(history);
    if times == [] then 0.0 else times[|times| - 1]
  }

  datatype Breaker = Breaker(threshold: int, cooldown: real) {
    /** Fewer failures than the threshold since the last clearing, or the cooldown has passed since the latest. */
    predicate Admits(history: seq<CircuitEvent>, now: real) {
      || |FailureTimes(history)| < threshold
      || now - LatestFailure(history) >= cooldown
    }

    /** Admission over the threshold clears the circuit. */
    function OnCall(history: seq<CircuitEvent>, now: real): seq<CircuitEvent> {
      if |FailureTimes(history)| >= threshold && Admits(history, now) then history + [Cleared] else history
    }
  }

  class Circuit {
    const breaker: Breaker
    var failures: int
    var openedAt: real
    ghost var history: seq<CircuitEvent>

    /** The two fields summarize the history. */
    ghost predicate Valid()
      reads this
    {
      && failures == |FailureTimes(history)|
      && (failures >= breaker.threshold ==> openedAt == LatestFailure(history))
    }

    constructor (breaker: Breaker)
      ensures Valid() && this.breaker == breaker && history == []
    {
      this.breaker := breaker;
      failures, openedAt, history := 0, 0.0, [];
    }

    /** _circuit_before_call */
    method BeforeCall(now: real) returns (admitted: bool)
      requires Valid()
      modifies this
      ensures Valid()
      ensures admitted == breaker.Admits(old(history), now)
      ensures history == breaker.OnCall(old(history), now)
    {
      if failures < breaker.threshold {
        return true;
      }
      if now - openedAt >= breaker.cooldown {
        failures, openedAt, history := 0, 0.0, history + [Cleared];
        return true;
      }
      return false;
    }

    /** _circuit_success */
    method Success()
      modifies this
      ensures Valid() && history == old(history) + [Cleared]
    {
      failures, openedAt, history := 0, 0.0, history + [Cleared];
    }

    /** _circuit_failure */
    method Failure(now: real)
      requires Valid()
      modifies this
      ensures Valid() && history == old(history) + [Failed(now)]
    {
      assert (history + [Failed(now)])[..|history|] == history;
      failures := failures + 1;
      if failures >= breaker.threshold {
        openedAt := now;
      }
      history := history + [Failed(now)];
    }
  }

  // ----- the retry loop

  /** What one post leads to. */
  datatype Reply<T> = Good(result: T) | BadContract | HttpError(status: int) | Transport | Unexpected

  datatype Attempt<T> = Attempt(reply: Reply<T>, duration: real)

  datatype DraftError =
    CircuitOpen | AuthRejected | ContractRejected(status: int) | ContractViolation | UpstreamRejected(status: int) | RequestFailed

  datatype Drafted<T> = Drafted(result: T, retries: nat)

  predicate Retryable<T>(reply: Reply<T>) {
    reply.Transport? || (reply.HttpError? && Classify(reply.status) == RetryableTransient)
  }

  /** How many of the first n replies are retryable before another one comes. */
  function Retries<T>(upstream: seq<Attempt<T>>, n: nat): (k: nat)
    requires n <= |upstream|
    ensures k <= n && forall j | 0 <= j < k :: Retryable(upstream[j].reply)
    ensures k < n ==> !Retryable(upstream[k].reply)
  {
    if n > 0 && Retryable(upstream[0].reply) then 1 + Retries(upstream[1..], n - 1) else 0
  }

  /** The answer to a reply that is not retried. */
  function Closing<T>(reply: Reply<T>, retries: nat): Result<Drafted<T>, DraftError> {
    match reply
    case Good(result) => Ok(Drafted(result, retries))
    case BadContract => Err(ContractViolation)
    case HttpError(status) =>
      (match Classify(status)
       case AuthTerminal => Err(AuthRejected)
       case ContractTerminal => Err(ContractRejected(status))
       case _ => Err(UpstreamRejected(status)))
    case _ => Err(RequestFailed)
  }

  /** The answer of a call, by the first reply that is not retried. */
  function Verdict<T>(upstream: seq<Attempt<T>>, n: nat): Result<Drafted<T>, DraftError>
    requires n <= |upstream|
  {
    var k := Retries(upstream, n);
    if k == n then Err(RequestFailed) else Closing(upstream[k].reply, k)
  }

  /** What a verdict leaves in the history: rejections of our own request leave nothing. */
  function Recorded<T>(verdict: Result<Drafted<T>, DraftError>, at: real): seq<CircuitEvent> {
    match verdict
    case Ok(_) => [Cleared]
    case Err(UpstreamRejected(_)) => [Failed(at)]
    case Err(RequestFailed) => [Failed(at)]
    case _ => []
  }

  predicate Timely<T>(upstream: seq<Attempt<T>>, timeout: real) {
    forall j | 0 <= j < |upstream| :: 0.0 <= upstream[j].duration <= timeout
  }

  function Count(k: nat, n: nat): nat {
    if k < n then k + 1 else n
  }

  lemma {:induction false} RetriesAre<T>(upstream: seq<Attempt<T>>, n: nat, k: nat)
    requires k <= n <= |upstream|
    requires forall j | 0 <= j < k :: Retryable(upstream[j].reply)
    requires k < n ==> !Retryable(upstream[k].reply)
    ensures Retries(upstream, n) == k
  {
    var r := Retries(upstream, n);
    if r < k {
      assert false;
    }
  }

  /** The posts of one call, as the upstream answers them. Each post carries the same request, there are at most
      `attempts` of them, and at most one failure is recorded, when the call is over. */
  method Post<P, T>(circuit: Circuit, s: Settings, request: P, upstream: seq<Attempt<T>>, start: real)
      returns (r: Result<Drafted<T>, DraftError>, sent: seq<P>, elapsed: real)
    requires circuit.Valid() && s.attempts >= 1 && s.backoff >= 0.0
    requires s.attempts <= |upstream| && Timely(upstream, s.timeout)
    modifies circuit
    ensures circuit.Valid() && r == Verdict(upstream, s.attempts)
    ensures circuit.history == old(circuit.history) + Recorded(r, start + elapsed)
    ensures sent == seq(Count(Retries(upstream, s.attempts), s.attempts), _ => request)
    ensures 0.0 <= elapsed <= Schedule(s.timeout, s.backoff, s.attempts)
  {
    sent, elapsed := [], 0.0;
    var attempt := 0;
    while attempt < s.attempts
      invariant 0 <= attempt <= s.attempts
      invariant forall j | 0 <= j < attempt :: Retryable(upstream[j].reply)
      invariant sent == seq(attempt, _ => request)
      invariant attempt < s.attempts ==> 0.0 <= elapsed <= TimeBefore(s.timeout, s.backoff, attempt)
      invariant attempt == s.attempts ==> 0.0 <= elapsed <= Schedule(s.timeout, s.backoff, s.attempts)
      invariant circuit.Valid() && circuit.history == old(circuit.history)
    {
      var reply := upstream[attempt].reply;
      sent := sent + [request];
      elapsed := elapsed + upstream[attempt].duration;
      TimeGrows(s.timeout, s.backoff, attempt, s.attempts);
      if !Retryable(reply) {
        RetriesAre(upstream, s.attempts, attempt);
        r := Close(circuit, reply, attempt, start + elapsed);
        return;
      }
      if attempt + 1 < s.attempts {
        Product(s.backoff, Pow2(attempt));
        elapsed := elapsed + s.backoff * Pow2(attempt) as real;
      }
      attempt := attempt + 1;
    }
    RetriesAre(upstream, s.attempts, s.attempts);
    circuit.Failure(start + elapsed);
    r := Err(RequestFailed);
  }

  /** The branches of a reply that is not retried. */
  method Close<T>(circuit: Circuit, reply: Reply<T>, retries: nat, at: real)
      returns (r: Result<Drafted<T>, DraftError>)
    requires circuit.Valid() && !Retryable(reply)
    modifies circuit
    ensures circuit.Valid() && circuit.history == old(circuit.history) + Recorded(r, at)
    ensures r == Closing(reply, retries)
  {
    if reply.Good? {
      circuit.Success();
      return Ok(Drafted(reply.result, retries));
    }
    if reply.BadContract? {
      return Err(ContractViolation);
    }
    if reply.HttpError? {
      var failure := Classify(reply.status);
      if failure == AuthTerminal {
        return Err(AuthRejected);
      }
      if failure == ContractTerminal {
        return Err(ContractRejected(reply.status));
      }
      circuit.Failure(at);
      return Err(UpstreamRejected(reply.status));
    }
    circuit.Failure(at);
    r := Err(RequestFailed);
  }

  /** draft: nothing is posted unless the circuit admits the call. */
  method Draft<P, T>(circuit: Circuit, s: Settings, request: P, upstream: seq<Attempt<T>>, now: real)
      returns (r: Result<Drafted<T>, DraftError>, sent: seq<P>, elapsed: real)
    requires circuit.Valid() && s.attempts >= 1 && s.backoff >= 0.0
    requires s.attempts <= |upstream| && Timely(upstream, s.timeout)
    modifies circuit
    ensures circuit.Valid()
    ensures !circuit.breaker.Admits(old(circuit.history), now) ==>
      r == Err(CircuitOpen) && sent == [] && elapsed == 0.0 && circuit.history == old(circuit.history)
    ensures circuit.breaker.Admits(old(circuit.history), now) ==>
      && r == Verdict(upstream, s.attempts)
      && circuit.history == circuit.breaker.OnCall(old(circuit.history), now) + Recorded(r, now + elapsed)
      && sent == seq(Count(Retries(upstream, s.attempts), s.attempts), _ => request)
      && 0.0 <= elapsed <= Schedule(s.timeout, s.backoff, s.attempts)
  {
    var admitted := circuit.BeforeCall(now);
    if !admitted {
      return Err(CircuitOpen), [], 0.0;
    }
    r, sent, elapsed := Post(circuit, s, request, upstream, now);
  }

  /** A call succeeds exactly when a good reply comes within the attempts and only retryable ones before it. */
  lemma SucceedsOnFirstGood<T>(upstream: seq<Attempt<T>>, n: nat, k: nat, result: T)
    requires n <= |upstream|
    ensures Verdict(upstream, n) == Ok(Drafted(result, k)) <==>
      (k < n && upstream[k].reply == Good(result) && forall j | 0 <= j < k :: Retryable(upstream[j].reply))
  {
    if k < n && upstream[k].reply == Good(result) && forall j | 0 <= j < k :: Retryable(upstream[j].reply) {
      RetriesAre(upstream, n, k);
    }
  }

  // ----- the answer and its trace, by the reply that decides

  predicate Transient<T>(reply: Reply<T>) {
    reply.Transport? || (reply.HttpError? && reply.status in {408, 429, 502, 503, 504})
  }

  /** What is told to the caller, and what is left in the circuit's history, for a reply that is not transient. */
  ghost predicate Tells<T>(reply: Reply<T>, retries: nat, at: real, answer: Result<Drafted<T>, DraftError>,
                     trace: seq<CircuitEvent>) {
    match reply
    case Good(result) => answer == Ok(Drafted(result, retries)) && trace == [Cleared]
    case BadContract => answer == Err(ContractViolation) && trace == []
    case Transport => answer == Err(RequestFailed) && trace == [Failed(at)]
    case Unexpected => answer == Err(RequestFailed) && trace == [Failed(at)]
    case HttpError(status) =>
      if status in {401, 403} then answer == Err(AuthRejected) && trace == []
      else if status in {400, 404, 409, 410, 412, 415, 422} then answer == Err(ContractRejected(status)) && trace == []
      else answer == Err(UpstreamRejected(status)) && trace == [Failed(at)]
  }

  lemma TransientIsRetryable<T>(reply: Reply<T>)
    ensures Transient(reply) <==> Retryable(reply)
  {
  }

  /** The first reply that is not transient decides what the caller is told and whether the circuit records a
      success, a failure or nothing; only transient replies, attempts many, end in a recorded failure. */
  lemma {:induction false} FirstReplyDecides<T>(upstream: seq<Attempt<T>>, n: nat, k: nat, at: real)
    requires k <= n <= |upstream| && forall j | 0 <= j < k :: Transient(upstream[j].reply)
    requires k < n ==> !Transient(upstream[k].reply)
    ensures var answer := Verdict(upstream, n);
      if k < n then Tells(upstream[k].reply, k, at, answer, Recorded(answer, at))
      else answer == Err(RequestFailed) && Recorded(answer, at) == [Failed(at)]
  {
    forall j | 0 <= j < k
      ensures Retryable(upstream[j].reply)
    {
      TransientIsRetryable(upstream[j].reply);
    }
    if k < n {
      TransientIsRetryable(upstream[k].reply);
    }
    RetriesAre(upstream, n, k);
  }

  // ----- how often an upstream that is down is called

  /** One call, from when it is let through or refused to when its failure is recorded. */
  datatype Try = Try(at: real, failedAt: real)

  /** Calls one after the other. */
  predicate Sequential(tries: seq<Try>, start: real, end: real) {
    if tries == [] then start <= end
    else start <= tries[0].at <= tries[0].failedAt && Sequential(tries[1..], tries[0].failedAt, end)
  }

  /** The history after a call that got through and failed. */
  function AfterFailure(b: Breaker, history: seq<CircuitEvent>, t: Try): seq<CircuitEvent> {
    b.OnCall(history, t.at) + [Failed(t.failedAt)]
  }

  /** The history after calls each of which, if it gets through, records a failure. */
  function Outage(b: Breaker, history: seq<CircuitEvent>, tries: seq<Try>): seq<CircuitEvent>
    decreases |tries|
  {
    if tries == [] then history
    else if b.Admits(history, tries[0].at) then
      Outage(b, AfterFailure(b, history, tries[0]), tries[1..])
    else Outage(b, history, tries[1..])
  }

  /** Failures and clearings. */
  function Failures(history: seq<CircuitEvent>): nat {
    if history == [] then 0
    else Failures(history[..|history| - 1]) + if history[|history| - 1].Failed? then 1 else 0
  }

  lemma {:induction false} FailuresSnoc(history: seq<CircuitEvent>, e: CircuitEvent)
    ensures Failures(history + [e]) == Failures(history) + if e.Failed? then 1 else 0
    ensures FailureTimes(history + [e]) == if e.Failed? then FailureTimes(history) + [e.at] else []
  {
    assert (history + [e])[..|history|] == history;
  }

  // ----- the cooldown, to the instant

  /** Failures at these times, one after the other. */
  function FailedAt(times: seq<real>): (events: seq<CircuitEvent>)
    ensures |events| == |times|
  {
    seq(|times|, i requires 0 <= i < |times| => Failed(times[i]))
  }

  lemma {:induction false} FailuresAfterClearing(history: seq<CircuitEvent>, times: seq<real>)
    ensures FailureTimes(history + [Cleared] + FailedAt(times)) == times
  {
    if times == [] {
      assert history + [Cleared] + FailedAt(times) == history + [Cleared];
      FailuresSnoc(history, Cleared);
    } else {
      var n := |times| - 1;
      FailuresAfterClearing(history, times[..n]);
      FailuresSnoc(history + [Cleared] + FailedAt(times[..n]), Failed(times[n]));
      assert FailedAt(times) == FailedAt(times[..n]) + [Failed(times[n])];
      assert history + [Cleared] + FailedAt(times) == (history + [Cleared] + FailedAt(times[..n])) + [Failed(times[n])];
      assert times == times[..n] + [times[n]];
    }
  }

  /** Whatever went before: after a clearing, calls get through until `threshold` failures have come; then they are
      refused until the cooldown since the latest failure is over, to the instant. The first call after that
      clears the circuit again. */
  lemma {:induction false} CooldownIsExact(b: Breaker, history: seq<CircuitEvent>, times: seq<real>, now: real)
    ensures var h := history + [Cleared] + FailedAt(times);
      var open := |times| >= b.threshold && |times| > 0 && now < times[|times| - 1] + b.cooldown;
      && (b.threshold >= 1 ==> (b.Admits(h, now) <==> !open))
      && (b.threshold >= 1 && !open ==> b.OnCall(h, now) == if |times| < b.threshold then h else h + [Cleared])
      && (b.threshold >= 1 && open ==> b.OnCall(h, now) == h)
  {
    FailuresAfterClearing(history, times);
  }

  /** How far an outage has come since a first history: `rounds` clearings, each a cooldown after the new failures
      before it. */
  ghost predicate Outlasted(b: Breaker, first: seq<CircuitEvent>, history: seq<CircuitEvent>, rounds: nat, start: real,
                            now: real) {
    (history == first && rounds == 0 && start <= now) || Failing(b, Failures(first), history, rounds, start, now)
  }

  ghost predicate Failing(b: Breaker, before: nat, history: seq<CircuitEvent>, rounds: nat, start: real, now: real) {
    var times := FailureTimes(history);
    && 0 < |times| <= b.threshold && Failures(history) <= before + b.threshold * rounds + |times|
    && rounds as real * b.cooldown <= times[|times| - 1] - start && times[|times| - 1] <= now
  }

  lemma {:induction false} AfterFailureTimes(b: Breaker, history: seq<CircuitEvent>, t: Try)
    ensures Failures(AfterFailure(b, history, t)) == Failures(history) + 1
    ensures FailureTimes(AfterFailure(b, history, t))
            == (if |FailureTimes(history)| >= b.threshold && b.Admits(history, t.at) then [] else FailureTimes(history))
               + [t.failedAt]
  {
    FailuresSnoc(b.OnCall(history, t.at), Failed(t.failedAt));
    FailuresSnoc(history, Cleared);
  }

  lemma FailsAgain(b: Breaker, before: nat, history: seq<CircuitEvent>, rounds: nat, start: real, now: real, t: Try)
      returns (rounds': nat)
    requires b.threshold >= 1 && b.cooldown > 0.0 && Failing(b, before, history, rounds, start, now)
    requires now <= t.at <= t.failedAt && b.Admits(history, t.at)
    ensures Failing(b, before, AfterFailure(b, history, t), rounds', start, t.failedAt)
  {
    AfterFailureTimes(b, history, t);
    if |FailureTimes(history)| >= b.threshold {
      rounds' := rounds + 1;
      assert b.threshold * rounds' == b.threshold * rounds + b.threshold;
      assert rounds' as real * b.cooldown == rounds as real * b.cooldown + b.cooldown;
    } else {
      rounds' := rounds;
    }
  }

  lemma OutageStep(b: Breaker, first: seq<CircuitEvent>, history: seq<CircuitEvent>, rounds: nat, start: real,
                   now: real, t: Try)
      returns (rounds': nat)
    requires b.threshold >= 1 && b.cooldown > 0.0 && Outlasted(b, first, history, rounds, start, now)
    requires now <= t.at <= t.failedAt && b.Admits(history, t.at)
    ensures Failing(b, Failures(first), AfterFailure(b, history, t), rounds', start, t.failedAt)
  {
    if Failing(b, Failures(first), history, rounds, start, now) {
      rounds' := FailsAgain(b, Failures(first), history, rounds, start, now, t);
    } else {
      rounds' := 0;
      AfterFailureTimes(b, history, t);
    }
  }

  lemma {:induction false} OutageRounds(b: Breaker, first: seq<CircuitEvent>, history: seq<CircuitEvent>, rounds: nat,
                                        tries: seq<Try>, start: real, now: real, end: real) returns (rounds': nat)
    requires b.threshold >= 1 && b.cooldown > 0.0 && Outlasted(b, first, history, rounds, start, now)
    requires Sequential(tries, now, end)
    ensures Outlasted(b, first, Outage(b, history, tries), rounds', start, end)
    decreases |tries|
  {
    if tries == [] {
      rounds' := rounds;
    } else if b.Admits(history, tries[0].at) {
      var next := OutageStep(b, first, history, rounds, start, now, tries[0]);
      rounds' := OutageRounds(b, first, AfterFailure(b, history, tries[0]), next, tries[1..], start, tries[0].failedAt, end);
    } else {
      rounds' := OutageRounds(b, first, history, rounds, tries[1..], start, tries[0].failedAt, end);
    }
  }

  lemma {:induction false} SequentialGoesOn(tries: seq<Try>, start: real, end: real)
    requires Sequential(tries, start, end)
    ensures start <= end
  {
    if tries != [] {
      SequentialGoesOn(tries[1..], tries[0].failedAt, end);
    }
  }

  /** Whatever happened before, while every call that gets through records a failure, and however many calls come
      one after the other: at most threshold calls get through, and threshold more for every full cooldown that
      passes. */
  lemma {:induction false} OutageIsBounded(b: Breaker, history: seq<CircuitEvent>, tries: seq<Try>, start: real, end: real)
    requires b.threshold >= 1 && b.cooldown > 0.0 && Sequential(tries, start, end)
    ensures Failures(Outage(b, history, tries)) - Failures(history)
            <= b.threshold * (1 + ((end - start) / b.cooldown).Floor)
  {
    SequentialGoesOn(tries, start, end);
    var rounds := OutageRounds(b, history, history, 0, tries, start, start, end);
    FloorOfRounds(rounds, b.cooldown, end - start);
    MulMonotone(b.threshold, 1 + rounds, 1 + ((end - start) / b.cooldown).Floor);
    assert b.threshold * (1 + rounds) == b.threshold + b.threshold * rounds;
  }

  lemma MulMonotone(a: nat, b: int, c: int)
    requires b <= c
    ensures a * b <= a * c
  {
  }

  lemma FloorOfRounds(rounds: nat, period: real, span: real)
    requires period > 0.0 && rounds as real * period <= span
    ensures rounds <= (span / period).Floor
  {
    var slack := span - rounds as real * period;
    assert slack / period >= 0.0;
    assert span / period == rounds as real + slack / period;
  }
}
