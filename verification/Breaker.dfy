/** Circuit breaker over retry (apps/hotmart-ebook-agent/hotmart_agent/errors.py and
    integrations/base.py). Clock readings are parameters; times are reals. */
module Breaker {
  import opened Prelude

  /** How one raw HTTP call ends. `Other` is any exception that is not an IntegrationError. */
  datatype Raw = Reply | Failed(retryable: bool) | Other

  /** threshold = failure_threshold, reset = reset_after_s, attempts = max_retries. */
  datatype Config = Config(threshold: int, reset: real, attempts: nat)

  datatype Status = Status(failures: int, openedAt: Option<real>)

  const FRESH := Status(0, None)

  /** A look at `is_open`: when the quarantine is over the circuit is half-open. */
  function Looked(c: Config, b: Status, now: real): Status {
    if b.openedAt.Some? && now - b.openedAt.value >= c.reset then Status(c.threshold - 1, None) else b
  }

  predicate Rejects(c: Config, b: Status, now: real) {
    b.openedAt.Some? && now - b.openedAt.value < c.reset
  }

  function FailureRecorded(c: Config, b: Status, now: real): Status {
    Status(b.failures + 1, if b.failures + 1 >= c.threshold then Some(now) else b.openedAt)
  }

  class CircuitBreaker {
    const c: Config
    var failures: int
    var openedAt: Option<real>

    constructor (c: Config)
      ensures this.c == c && State() == FRESH
    {
      this.c := c;
      failures, openedAt := 0, None;
    }

    function State(): Status
      reads this
    {
      Status(failures, openedAt)
    }

    method IsOpen(now: real) returns (open: bool)
      modifies this
      ensures open == Rejects(c, old(State()), now)
      ensures State() == Looked(c, old(State()), now)
    {
      if openedAt == None {
        return false;
      }
      if now - openedAt.value >= c.reset {
        openedAt := None;
        failures := c.threshold - 1;
        return false;
      }
      return true;
    }

    method RecordSuccess()
      modifies this
      ensures State() == FRESH
    {
      failures, openedAt := 0, None;
    }

    method RecordFailure(now: real)
      modifies this
      ensures State() == FailureRecorded(c, old(State()), now)
    {
      failures := failures + 1;
      if failures >= c.threshold {
        openedAt := Some(now);
      }
    }
  }

  // ------------------------------------------------------------------- retry

  /** `calls` raw calls are the right number: all but the last failed retryably, and the last one
      settles the matter or uses up the attempts. */
  ghost predicate RetryStops(attempts: nat, raw: nat -> Raw, calls: nat) {
    && calls <= attempts
    && (forall k :: 0 <= k < calls - 1 ==> raw(k) == Failed(true))
    && (calls < attempts ==> calls > 0 && raw(calls - 1) != Failed(true))
    && (calls == 0 ==> attempts == 0)
  }

  /** Runs the call under the retry wrapper. Without attempts its final assertion fails (None). */
  method Retry(attempts: nat, raw: nat -> Raw) returns (result: Option<Raw>, calls: nat)
    ensures RetryStops(attempts, raw, calls)
    ensures result == if calls == 0 then None else Some(raw(calls - 1))
  {
    calls, result := 0, None;
    while calls < attempts
      invariant calls <= attempts
      invariant forall k :: 0 <= k < calls ==> raw(k) == Failed(true)
      invariant result == if calls == 0 then None else Some(raw(calls - 1))
    {
      var outcome := raw(calls);
      calls, result := calls + 1, Some(outcome);
      if outcome != Failed(true) {
        return;
      }
    }
  }

  /** The number of calls is determined by the outcomes. */
  lemma RetryUnique(attempts: nat, raw: nat -> Raw, m: nat, n: nat)
    requires RetryStops(attempts, raw, m) && RetryStops(attempts, raw, n)
    ensures m == n
  {
    assert forall k :: 0 <= k < m - 1 || 0 <= k < n - 1 ==> raw(k) == Failed(true);
  }

  function CallsOf(attempts: nat, raw: nat -> Raw, k: nat): (calls: nat)
    requires k <= attempts
    requires forall j :: 0 <= j < k ==> raw(j) == Failed(true)
    ensures RetryStops(attempts, raw, calls)
    decreases attempts - k
  {
    if k == attempts then k
    else if raw(k) != Failed(true) then k + 1
    else CallsOf(attempts, raw, k + 1)
  }

  // ---------------------------------------------------------------- requests

  /** A request: when it is made, when it ends, and how its raw calls would end. */
  datatype Request = Request(at: real, done: real, raw: nat -> Raw)

  datatype Answer = CircuitOpen | Ended(result: Option<Raw>)

  function ResultOf(c: Config, r: Request): Option<Raw> {
    var calls := CallsOf(c.attempts, r.raw, 0);
    if calls == 0 then None else Some(r.raw(calls - 1))
  }

  predicate Fails(c: Config, r: Request) {
    ResultOf(c, r).Some? && ResultOf(c, r).value.Failed?
  }

  /** The breaker after a request: only integration errors and successes are recorded. */
  function Served(c: Config, b: Status, r: Request): Status {
    if Rejects(c, b, r.at) then b
    else
      var b1 := Looked(c, b, r.at);
      if Fails(c, r) then FailureRecorded(c, b1, r.done)
      else if ResultOf(c, r) == Some(Reply) then FRESH
      else b1
  }

  class HttpClient {
    const breaker: CircuitBreaker
    const c: Config

    constructor (c: Config)
      ensures this.c == c && breaker.c == c && breaker.State() == FRESH && fresh(breaker)
    {
      this.c := c;
      breaker := new CircuitBreaker(c);
    }

    method Send(r: Request) returns (answer: Answer, calls: nat)
      requires breaker.c == c
      modifies breaker
      ensures breaker.State() == Served(c, old(breaker.State()), r)
      ensures answer == CircuitOpen <==> Rejects(c, old(breaker.State()), r.at)
      ensures answer.CircuitOpen? ==> calls == 0
      ensures answer.Ended? ==> answer.result == ResultOf(c, r) && RetryStops(c.attempts, r.raw, calls)
    {
      var open := breaker.IsOpen(r.at);
      if open {
        return CircuitOpen, 0;
      }
      var result;
      result, calls := Retry(c.attempts, r.raw);
      RetryUnique(c.attempts, r.raw, calls, CallsOf(c.attempts, r.raw, 0));
      answer := Ended(result);
      match result {
        case Some(Failed(_)) => breaker.RecordFailure(r.done);
        case Some(Reply) => breaker.RecordSuccess();
        case _ =>
      }
    }
  }

  // -------------------------------------------------------------- rate bound

  /** What a list of requests has cost so far. */
  datatype Tally = Tally(status: Status, failed: nat, calls: nat)

  function Play(c: Config, t: Tally, r: Request): Tally {
    if Rejects(c, t.status, r.at) then t
    else Tally(Served(c, t.status, r),
               t.failed + (if Fails(c, r) then 1 else 0),
               t.calls + (if Fails(c, r) then CallsOf(c.attempts, r.raw, 0) else 0))
  }

  function PlayAll(c: Config, t: Tally, rs: seq<Request>): Tally
    decreases |rs|
  {
    if rs == [] then t else PlayAll(c, Play(c, t, rs[0]), rs[1..])
  }

  /** One request after the other through one client. The tally of the list is what the breaker is left
      with, how many requests failed, and the raw calls they made. */
  method SendAll(client: HttpClient, rs: seq<Request>) returns (failed: nat, calls: nat)
    requires client.breaker.c == client.c
    modifies client.breaker
    ensures Tally(client.breaker.State(), failed, calls) ==
            PlayAll(client.c, Tally(old(client.breaker.State()), 0, 0), rs)
  {
    failed, calls := 0, 0;
    ghost var whole := PlayAll(client.c, Tally(client.breaker.State(), 0, 0), rs);
    for i := 0 to |rs|
      invariant whole == PlayAll(client.c, Tally(client.breaker.State(), failed, calls), rs[i..])
    {
      assert rs[i..][0] == rs[i] && rs[i..][1..] == rs[i + 1..];
      var answer, made := client.Send(rs[i]);
      if answer.Ended? && answer.result.Some? && answer.result.value.Failed? {
        RetryUnique(client.c.attempts, rs[i].raw, made, CallsOf(client.c.attempts, rs[i].raw, 0));
        failed, calls := failed + 1, calls + made;
      }
    }
  }

  lemma {:induction false} AfterIsPlayed(c: Config, t: Tally, rs: seq<Request>)
    ensures PlayAll(c, t, rs).status == After(c, t.status, rs)
    decreases |rs|
  {
    if rs != [] {
      AfterIsPlayed(c, Play(c, t, rs[0]), rs[1..]);
    }
  }

  /** The tally counts what a request really costs: nothing when it is rejected; else its raw calls, if it
      ends in an integration error. */
  lemma PlayCounts(c: Config, t: Tally, r: Request)
    ensures Rejects(c, t.status, r.at) ==> Play(c, t, r) == t
    ensures !Rejects(c, t.status, r.at) && Fails(c, r) ==>
              Play(c, t, r).failed == t.failed + 1 && Play(c, t, r).calls >= t.calls &&
              RetryStops(c.attempts, r.raw, Play(c, t, r).calls - t.calls)
    ensures !Fails(c, r) ==> Play(c, t, r).failed == t.failed && Play(c, t, r).calls == t.calls
  {}

  /** One request after the other, none before `now`, all made by `end`, none of those let through
      successful. */
  ghost predicate Sequential(c: Config, t: Tally, rs: seq<Request>, now: real, end: real)
    decreases |rs|
  {
    rs != [] ==>
      && now <= rs[0].at <= end && rs[0].at <= rs[0].done
      && (Rejects(c, t.status, rs[0].at) || ResultOf(c, rs[0]) != Some(Reply))
      && Sequential(c, Play(c, t, rs[0]), rs[1..], rs[0].done, end)
  }

  /** `failed` recorded failures beyond the threshold take a reset time each. */
  ghost predicate Spaced(c: Config, failed: int, elapsed: real) {
    (failed - c.threshold) as real * c.reset <= elapsed
  }

  ghost predicate Paced(c: Config, t: Tally, start: real, now: real) {
    match t.status.openedAt
    case None =>
      && t.status.failures <= c.threshold - 1
      && (t.failed == t.status.failures ||
          (t.status.failures == c.threshold - 1 && Spaced(c, t.failed + 1, now - start)))
    case Some(o) => o <= now && Spaced(c, t.failed, o - start)
  }

  lemma SpacedNext(c: Config, failed: int, elapsed: real, more: real)
    requires Spaced(c, failed, elapsed) && more >= elapsed + c.reset
    ensures Spaced(c, failed + 1, more)
  {
    var x := (failed - c.threshold) as real;
    assert (failed + 1 - c.threshold) as real == x + 1.0;
    assert (x + 1.0) * c.reset == x * c.reset + c.reset;
  }

  lemma PlayPaced(c: Config, t: Tally, r: Request, start: real, now: real)
    requires c.threshold >= 1 && c.reset > 0.0
    requires Paced(c, t, start, now) && start <= now <= r.at <= r.done
    requires Rejects(c, t.status, r.at) || ResultOf(c, r) != Some(Reply)
    ensures Paced(c, Play(c, t, r), start, r.done)
    ensures Play(c, t, r).failed > t.failed ==>
              Play(c, t, r).failed <= c.threshold || Spaced(c, Play(c, t, r).failed, r.at - start)
  {
    if t.status.openedAt.Some? && !Rejects(c, t.status, r.at) {
      SpacedNext(c, t.failed, t.status.openedAt.value - start, r.at - start);
    }
  }

  lemma {:induction false} AllPaced(c: Config, t: Tally, rs: seq<Request>, start: real, now: real, end: real)
    requires c.threshold >= 1 && c.reset > 0.0
    requires Paced(c, t, start, now) && start <= now && Sequential(c, t, rs, now, end)
    requires t.failed <= c.threshold || Spaced(c, t.failed, end - start)
    ensures var t' := PlayAll(c, t, rs);
            t'.failed <= c.threshold || Spaced(c, t'.failed, end - start)
    decreases |rs|
  {
    if rs != [] {
      PlayPaced(c, t, rs[0], start, now);
      AllPaced(c, Play(c, t, rs[0]), rs[1..], start, rs[0].done, end);
    }
  }

  lemma {:induction false} CallsBounded(c: Config, t: Tally, rs: seq<Request>)
    requires t.calls <= c.attempts * t.failed
    ensures PlayAll(c, t, rs).calls <= c.attempts * PlayAll(c, t, rs).failed
    decreases |rs|
  {
    if rs != [] {
      var t1 := Play(c, t, rs[0]);
      if t1.failed > t.failed {
        assert c.attempts * (t.failed + 1) == c.attempts * t.failed + c.attempts;
      }
      CallsBounded(c, t1, rs[1..]);
    }
  }

  /** From a success on, the failing requests that get through within `span` of the first are at
      most the threshold plus one per reset time, and each costs at most `attempts` raw calls. */
  lemma RateBound(c: Config, rs: seq<Request>, span: real)
    requires c.threshold >= 1 && c.reset > 0.0 && rs != []
    requires Sequential(c, Tally(FRESH, 0, 0), rs, rs[0].at, rs[0].at + span)
    ensures var t := PlayAll(c, Tally(FRESH, 0, 0), rs);
            && t.failed as real <= c.threshold as real + span / c.reset
            && t.calls <= c.attempts * t.failed
  {
    var start := rs[0].at;
    var t0 := Tally(FRESH, 0, 0);
    AllPaced(c, t0, rs, start, start, start + span);
    CallsBounded(c, t0, rs);
    var n := PlayAll(c, t0, rs).failed;
    assert span >= 0.0;
    if n > c.threshold {
      var x := (n - c.threshold) as real;
      assert x * c.reset <= span;
      QuotientBound(x, c.reset, span);
    } else {
      QuotientBound(0.0, c.reset, span);
    }
  }

  lemma QuotientBound(x: real, r: real, span: real)
    requires r > 0.0 && x * r <= span
    ensures x <= span / r
  {
    var q := span / r;
    assert q * r == span;
    assert (x - q) * r <= 0.0;
  }

  /** How many of the requests, if let through, would end in an integration error. */
  function FailuresIn(c: Config, rs: seq<Request>): nat {
    if rs == [] then 0 else (if Fails(c, rs[0]) then 1 else 0) + FailuresIn(c, rs[1..])
  }

  /** None of the requests is rejected. */
  ghost predicate AllServed(c: Config, b: Status, rs: seq<Request>)
    decreases |rs|
  {
    rs != [] ==> !Rejects(c, b, rs[0].at) && AllServed(c, Served(c, b, rs[0]), rs[1..])
  }

  lemma {:induction false} ClosedServes(c: Config, b: Status, rs: seq<Request>)
    requires b.openedAt.None? && 0 <= b.failures && b.failures + FailuresIn(c, rs) < c.threshold
    ensures AllServed(c, b, rs)
    decreases |rs|
  {
    if rs != [] {
      ClosedServes(c, Served(c, b, rs[0]), rs[1..]);
    }
  }

  /** A success lets everything through again, whatever came before it, until as many requests have ended
      in an integration error as the threshold says. */
  lemma SuccessCloses(c: Config, b: Status, r: Request, rs: seq<Request>)
    requires !Rejects(c, b, r.at) && ResultOf(c, r) == Some(Reply)
    requires FailuresIn(c, rs) < c.threshold
    ensures AllServed(c, Served(c, b, r), rs)
  {
    ClosedServes(c, Served(c, b, r), rs);
  }

  /** While the quarantine lasts a request reaches the network with no call at all. */
  lemma QuarantineHolds(c: Config, t: Tally, r: Request)
    requires t.status.openedAt.Some? && r.at < t.status.openedAt.value + c.reset
    ensures Play(c, t, r) == t
  {}

  /** The half-open circuit lets a second request through at once exactly when the first one did
      not end in an integration error: a success closes it, any other exception goes unrecorded. */
  lemma HalfOpenTest(c: Config, b: Status, r: Request)
    requires b.openedAt.Some? && r.at - b.openedAt.value >= c.reset > 0.0
    ensures Rejects(c, Served(c, b, r), r.done) <==> Fails(c, r)
  {}

  /** So the bound is about integration errors only: after the quarantine, requests that end in
      other exceptions get through without limit. */
  lemma {:induction false} OtherUnlimited(c: Config, b: Status, at: real, raw: nat -> Raw, m: nat)
    requires b.openedAt.Some? && at - b.openedAt.value >= c.reset > 0.0
    requires ResultOf(c, Request(at, at, raw)) == Some(Other)
    ensures var rs := seq(m, _ => Request(at, at, raw));
            forall i :: 0 <= i <= m ==> !Rejects(c, After(c, b, rs[..i]), at)
  {
    var rs := seq(m, _ => Request(at, at, raw));
    forall i | 0 <= i <= m
      ensures !Rejects(c, After(c, b, rs[..i]), at)
    {
      OtherRepeated(c, b, at, raw, i);
      assert rs[..i] == seq(i, _ => Request(at, at, raw));
    }
  }

  function After(c: Config, b: Status, rs: seq<Request>): Status
    decreases |rs|
  {
    if rs == [] then b else After(c, Served(c, b, rs[0]), rs[1..])
  }

  lemma {:induction false} OtherRepeated(c: Config, b: Status, at: real, raw: nat -> Raw, i: nat)
    requires !Rejects(c, b, at)
    requires ResultOf(c, Request(at, at, raw)) == Some(Other)
    ensures !Rejects(c, After(c, b, seq(i, _ => Request(at, at, raw))), at)
    decreases i
  {
    if i > 0 {
      var rs := seq(i, _ => Request(at, at, raw));
      assert rs[1..] == seq(i - 1, _ => Request(at, at, raw));
      OtherRepeated(c, Served(c, b, rs[0]), at, raw, i - 1);
    }
  }
}
