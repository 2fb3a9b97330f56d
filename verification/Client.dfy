/** The client's circuit breaker over whole call histories, and its bounded retry. */
module Client {
  import opened Prelude

  datatype State = Closed | Open | HalfOpen

  datatype Thresholds = Thresholds(failures: nat, recovery: int, successes: nat)

  datatype Breaker = Breaker(state: State, failureCount: nat, lastFailure: int, successCount: nat)

  /** A call of the breaker and the time at which it was made. */
  datatype Call = CanRequest(at: int) | Success(at: int) | Failure(at: int) | Reset(at: int)

  const NEW := Breaker(Closed, 0, 0, 0)

  /** The answer of `CanRequest`: no only while open and before the recovery time has passed. */
  predicate Allows(c: Thresholds, b: Breaker, now: int) {
    b.state == Open ==> now - b.lastFailure >= c.recovery
  }

  function Next(c: Thresholds, b: Breaker, call: Call): (b': Breaker) {
    match call
    case CanRequest(now) =>
      if b.state == Open && Allows(c, b, now) then b.(state := HalfOpen, successCount := 0) else b
    case Success(_) =>
      (match b.state
       case HalfOpen =>
         if b.successCount + 1 >= c.successes then b.(state := Closed, failureCount := 0, successCount := b.successCount + 1)
         else b.(successCount := b.successCount + 1)
       case Closed => b.(failureCount := 0)
       case Open => b)
    case Failure(now) =>
      var f := b.(failureCount := b.failureCount + 1, lastFailure := now);
      if b.state == HalfOpen || f.failureCount >= c.failures then f.(state := Open) else f
    case Reset(_) => b.(state := Closed, failureCount := 0, successCount := 0)
  }

  function After(c: Thresholds, calls: seq<Call>): (b: Breaker) {
    if calls == [] then NEW else Next(c, After(c, calls[..|calls| - 1]), calls[|calls| - 1])
  }

  // ---------- reading a history ----------

  /** Failures since the last success or reset. */
  function RecentFailures(calls: seq<Call>): (n: nat) {
    if calls == [] then 0
    else
      match calls[|calls| - 1]
      case Failure(_) => RecentFailures(calls[..|calls| - 1]) + 1
      case CanRequest(_) => RecentFailures(calls[..|calls| - 1])
      case Success(_) => 0
      case Reset(_) => 0
  }

  function LastFailure(calls: seq<Call>): (t: Option<int>) {
    if calls == [] then None
    else if calls[|calls| - 1].Failure? then Some(calls[|calls| - 1].at)
    else LastFailure(calls[..|calls| - 1])
  }

  function Successes(calls: seq<Call>): (n: nat) {
    if calls == [] then 0 else Successes(calls[..|calls| - 1]) + (if calls[|calls| - 1].Success? then 1 else 0)
  }

  predicate Undisturbed(calls: seq<Call>) {
    forall i :: 0 <= i < |calls| ==> !calls[i].Failure? && !calls[i].Reset?
  }

  /** The call at `i` was let through an open breaker at least the recovery time after the last
      failure, and nothing has failed or been reset since. */
  ghost predicate ProbingSince(c: Thresholds, calls: seq<Call>, i: nat) {
    && i < |calls| && calls[i].CanRequest?
    && After(c, calls[..i]).state == Open
    && LastFailure(calls[..i]).Some? && calls[i].at - LastFailure(calls[..i]).value >= c.recovery
    && Undisturbed(calls[i + 1..])
  }

  lemma {:induction false} ClosedCounts(c: Thresholds, calls: seq<Call>)
    requires c.failures >= 1
    ensures var b := After(c, calls); b.state == Closed ==> b.failureCount == RecentFailures(calls) < c.failures
  {
    if calls != [] {
      ClosedCounts(c, calls[..|calls| - 1]);
    }
  }

  /** The breaker opens from closed exactly on the failure that makes `failures` of them since the
      last success or reset. */
  lemma OpensExactlyAtThreshold(c: Thresholds, calls: seq<Call>, call: Call)
    requires c.failures >= 1 && After(c, calls).state == Closed
    ensures Next(c, After(c, calls), call).state != Closed <==> RecentFailures(calls + [call]) == c.failures
    ensures Next(c, After(c, calls), call).state != Closed ==> call.Failure? && Next(c, After(c, calls), call).state == Open
  {
    ClosedCounts(c, calls);
    assert (calls + [call])[..|calls|] == calls;
  }

  lemma {:induction false} LastFailureKnown(c: Thresholds, calls: seq<Call>)
    requires c.failures >= 1
    ensures var b := After(c, calls);
            && (b.state != Closed ==> LastFailure(calls).Some?)
            && (LastFailure(calls).Some? ==> b.lastFailure == LastFailure(calls).value)
  {
    if calls != [] {
      LastFailureKnown(c, calls[..|calls| - 1]);
      ClosedCounts(c, calls[..|calls| - 1]);
    }
  }

  /** While open, requests are refused until the recovery time after the last failure. */
  lemma RefusedExactlyBeforeRecovery(c: Thresholds, calls: seq<Call>, now: int)
    requires c.failures >= 1
    ensures !Allows(c, After(c, calls), now) <==>
      After(c, calls).state == Open && LastFailure(calls).Some? && now - LastFailure(calls).value < c.recovery
  {
    LastFailureKnown(c, calls);
  }

  lemma ProbingExtended(c: Thresholds, calls: seq<Call>, i: nat, call: Call)
    requires ProbingSince(c, calls, i) && !call.Failure? && !call.Reset?
    ensures ProbingSince(c, calls + [call], i)
    ensures Successes((calls + [call])[i + 1..]) == Successes(calls[i + 1..]) + (if call.Success? then 1 else 0)
  {
    var more := calls + [call];
    assert more[..i] == calls[..i] && more[i] == calls[i];
    assert more[i + 1..] == calls[i + 1..] + [call];
    assert (calls[i + 1..] + [call])[..|calls| - i - 1] == calls[i + 1..];
  }

  /** Half-open always follows a probe, and counts the successes since it. */
  lemma {:induction false} HalfOpenProbing(c: Thresholds, calls: seq<Call>) returns (i: nat)
    requires c.failures >= 1 && c.successes >= 1 && After(c, calls).state == HalfOpen
    ensures ProbingSince(c, calls, i)
    ensures After(c, calls).successCount == Successes(calls[i + 1..]) < c.successes
  {
    var n := |calls| - 1;
    var front, call := calls[..n], calls[n];
    assert calls == front + [call];
    if After(c, front).state == HalfOpen {
      i := HalfOpenProbing(c, front);
      ProbingExtended(c, front, i, call);
    } else {
      i := n;
      LastFailureKnown(c, front);
      assert calls[n + 1..] == [];
    }
  }

  /** Every return to closed other than by reset is a success that completes `successes` of them,
      uninterrupted since a probe made no sooner than the recovery time after the last failure. */
  lemma ClosesOnlyAfterProbe(c: Thresholds, calls: seq<Call>, call: Call) returns (i: nat)
    requires c.failures >= 1 && c.successes >= 1
    requires After(c, calls).state != Closed && Next(c, After(c, calls), call).state == Closed && !call.Reset?
    ensures call.Success? && ProbingSince(c, calls + [call], i)
    ensures Successes((calls + [call])[i + 1..]) == c.successes
  {
    i := HalfOpenProbing(c, calls);
    ProbingExtended(c, calls, i, call);
  }

  /** The converse: once a probe went out and nothing has failed or been reset since, the breaker is
      closed exactly when there have been enough successes, and half-open before. */
  lemma {:induction false} ClosedAfterProbe(c: Thresholds, calls: seq<Call>, i: nat)
    requires c.failures >= 1 && ProbingSince(c, calls, i)
    ensures var n := Successes(calls[i + 1..]);
            After(c, calls).state == if n >= 1 && n >= c.successes then Closed else HalfOpen
    ensures After(c, calls).state == HalfOpen ==> After(c, calls).successCount == Successes(calls[i + 1..])
  {
    var n := |calls| - 1;
    var front, call := calls[..n], calls[n];
    if i == n {
      LastFailureKnown(c, front);
      assert calls[n + 1..] == [];
    } else {
      assert calls == front + [call] && front[..i] == calls[..i];
      var since, all := front[i + 1..], calls[i + 1..];
      assert call == all[n - i - 1] && forall j :: 0 <= j < |since| ==> since[j] == all[j];
      ClosedAfterProbe(c, front, i);
      ProbingExtended(c, front, i, call);
    }
  }

  /** A reset closes the breaker from every state, and it takes a full count of failures to open it
      again. */
  lemma ResetCloses(c: Thresholds, calls: seq<Call>, at: int, more: seq<Call>)
    requires c.failures >= 1 && |more| < c.failures
    ensures After(c, calls + [Reset(at)] + more).state == Closed
  {
    FewStayClosed(c, calls + [Reset(at)], more);
  }

  lemma {:induction false} FewStayClosed(c: Thresholds, calls: seq<Call>, more: seq<Call>)
    requires calls != [] && calls[|calls| - 1].Reset? && |more| < c.failures
    ensures After(c, calls + more).state == Closed && After(c, calls + more).failureCount <= |more|
  {
    if more == [] {
      assert calls + more == calls;
    } else {
      var n := |more| - 1;
      FewStayClosed(c, calls, more[..n]);
      assert (calls + more)[..|calls| + n] == calls + more[..n];
    }
  }

  // ---------- the objects ----------

  class CircuitBreaker {
    const thresholds: Thresholds
    var state: State
    var failureCount: nat
    var lastFailureTime: int
    var successCount: nat
    /** Every call made so far. */
    ghost var calls: seq<Call>

    ghost function Now(): (b: Breaker)
      reads this
    {
      Breaker(state, failureCount, lastFailureTime, successCount)
    }

    ghost predicate Valid()
      reads this
    {
      Now() == After(thresholds, calls)
    }

    constructor (thresholds: Thresholds)
      ensures Valid() && this.thresholds == thresholds && calls == []
    {
      this.thresholds := thresholds;
      state, failureCount, lastFailureTime, successCount, calls := Closed, 0, 0, 0, [];
    }

    method MayRequest(now: int) returns (allowed: bool)
      requires Valid()
      modifies this
      ensures Valid() && calls == old(calls) + [CanRequest(now)]
      ensures allowed == Allows(thresholds, After(thresholds, old(calls)), now)
    {
      ghost var before := Now();
      allowed := true;
      if state == Open {
        if now - lastFailureTime >= thresholds.recovery {
          state := HalfOpen;
          successCount := 0;
        } else {
          allowed := false;
        }
      }
      assert Now() == Next(thresholds, before, CanRequest(now));
      Extend(before, CanRequest(now));
    }

    method RecordSuccess(now: int)
      requires Valid()
      modifies this
      ensures Valid() && calls == old(calls) + [Success(now)]
    {
      ghost var before := Now();
      if state == HalfOpen {
        successCount := successCount + 1;
        if successCount >= thresholds.successes {
          state := Closed;
          failureCount := 0;
        }
      } else if state == Closed {
        failureCount := 0;
      }
      assert Now() == Next(thresholds, before, Success(now));
      Extend(before, Success(now));
    }

    method RecordFailure(now: int)
      requires Valid()
      modifies this
      ensures Valid() && calls == old(calls) + [Failure(now)]
    {
      ghost var before := Now();
      failureCount := failureCount + 1;
      lastFailureTime := now;
      if state == HalfOpen {
        state := Open;
      } else if failureCount >= thresholds.failures {
        state := Open;
      }
      assert Now() == Next(thresholds, before, Failure(now));
      Extend(before, Failure(now));
    }

    method ResetBreaker(now: int)
      requires Valid()
      modifies this
      ensures Valid() && calls == old(calls) + [Reset(now)]
    {
      ghost var before := Now();
      state, failureCount, successCount := Closed, 0, 0;
      assert Now() == Next(thresholds, before, Reset(now));
      Extend(before, Reset(now));
    }

    /** Adds a call to the history that the fields already reflect. */
    ghost method Extend(before: Breaker, call: Call)
      requires before == After(thresholds, calls) && Now() == Next(thresholds, before, call)
      modifies this`calls
      ensures Valid() && calls == old(calls) + [call]
    {
      ExtendedBy(thresholds, calls, call);
      calls := calls + [call];
    }
  }

  // ---------- requests ----------

  datatype Response = SendFailed | ReadFailed | Status(code: nat)

  /** What one attempt meets: the breaker calls that other requests make before it asks, before it
      sends and before it reports, the times of its own calls, whether the request could be built,
      the response, and whether the wait before a retry ran to its end. */
  datatype Attempt = Attempt(
    before: seq<Call>, asked: int, built: bool, between: seq<Call>, response: Response, meanwhile: seq<Call>, answered: int,
    waited: bool)

  datatype RequestResult = Answered | CircuitOpen | NotBuilt | NetworkError | ReadError | HttpError(code: nat) | Cancelled

  /** What happens at a client, in order: a request is begun, it calls the breaker, other requests
      call the breaker, and it goes out over the network. */
  datatype Event = Enter | Own(call: Call) | Other(call: Call) | Sent

  /** Where the request at hand stands. */
  datatype Phase = Quiet | Asked(yes: bool) | Sending | Done

  /** An observer of the trace, who knows the breaker and counts the sends of the request at hand.
      `Wrong`: something was done out of turn. */
  datatype Observation = Observation(breaker: Breaker, phase: Phase, sends: nat) | Wrong

  /** In turn is: a question to the breaker, a send if it was answered yes, one report, and after a
      failure the next question. Others may call the breaker at any time. */
  function See(c: Thresholds, o: Observation, e: Event): (o': Observation) {
    if o.Wrong? then Wrong
    else
      match (e, o.phase)
      case (Other(call), _) => o.(breaker := Next(c, o.breaker, call))
      case (Enter, Sending) => Wrong
      case (Enter, _) => Observation(o.breaker, Quiet, 0)
      case (Own(CanRequest(now)), Quiet) => o.(breaker := Next(c, o.breaker, e.call), phase := Asked(Allows(c, o.breaker, now)))
      case (Sent, Asked(true)) => o.(phase := Sending, sends := o.sends + 1)
      case (Own(Failure(_)), Sending) => o.(breaker := Next(c, o.breaker, e.call), phase := Quiet)
      case (Own(Success(_)), Sending) => o.(breaker := Next(c, o.breaker, e.call), phase := Done)
      case (_, _) => Wrong
  }

  function Watch(c: Thresholds, trace: seq<Event>): (o: Observation) {
    if trace == [] then Observation(NEW, Quiet, 0) else See(c, Watch(c, trace[..|trace| - 1]), trace[|trace| - 1])
  }

  /** Nothing is ever out of turn in what the observer accepts. */
  lemma {:induction false} WatchPrefix(c: Thresholds, trace: seq<Event>, n: nat)
    requires n <= |trace| && Watch(c, trace).Observation?
    ensures Watch(c, trace[..n]).Observation?
    decreases |trace|
  {
    if n < |trace| {
      var front := trace[..|trace| - 1];
      WatchPrefix(c, front, n);
      assert front[..n] == trace[..n];
    } else {
      assert trace[..n] == trace;
    }
  }

  /** So every send follows, with nothing but other requests in between, a question of its own that
      the breaker answered yes, given all calls made until then. */
  lemma {:induction false} SendWasPermitted(c: Thresholds, trace: seq<Event>, i: nat) returns (j: nat)
    requires i < |trace| && Watch(c, trace).Observation? && trace[i].Sent?
    ensures j < i && trace[j].Own? && trace[j].call.CanRequest? && forall k :: j < k < i ==> trace[k].Other?
    ensures Watch(c, trace[..j]).Observation? && Allows(c, Watch(c, trace[..j]).breaker, trace[j].call.at)
  {
    WatchPrefix(c, trace, i + 1);
    assert trace[..i + 1][..i] == trace[..i];
    j := QuestionBefore(c, trace, i);
  }

  lemma {:induction false} QuestionBefore(c: Thresholds, trace: seq<Event>, i: nat) returns (j: nat)
    requires i <= |trace| && Watch(c, trace[..i]).Observation? && Watch(c, trace[..i]).phase == Asked(true)
    ensures j < i && trace[j].Own? && trace[j].call.CanRequest? && forall k :: j < k < i ==> trace[k].Other?
    ensures Watch(c, trace[..j]).Observation? && Allows(c, Watch(c, trace[..j]).breaker, trace[j].call.at)
  {
    j := i - 1;
    assert trace[..i][..j] == trace[..j];
    if trace[j].Other? {
      j := QuestionBefore(c, trace, j);
    }
  }

  /** And every send of a trace that does not end in the middle of one is reported once, before
      anything else is done for its request. */
  lemma SendWasReported(c: Thresholds, trace: seq<Event>, i: nat) returns (j: nat)
    requires i < |trace| && Watch(c, trace).Observation? && trace[i].Sent? && Watch(c, trace).phase != Sending
    ensures i < j < |trace| && trace[j].Own? && (trace[j].call.Success? || trace[j].call.Failure?)
    ensures forall k :: i < k < j ==> trace[k].Other?
  {
    WatchPrefix(c, trace, i + 1);
    assert trace[..i + 1][..i] == trace[..i];
    j := ReportAfter(c, trace, i + 1);
  }

  lemma {:induction false} ReportAfter(c: Thresholds, trace: seq<Event>, n: nat) returns (j: nat)
    requires n <= |trace| && Watch(c, trace).Observation? && Watch(c, trace).phase != Sending
    requires Watch(c, trace[..n]).Observation? && Watch(c, trace[..n]).phase == Sending
    ensures n <= j < |trace| && trace[j].Own? && (trace[j].call.Success? || trace[j].call.Failure?)
    ensures forall k :: n <= k < j ==> trace[k].Other?
    decreases |trace| - n
  {
    assert trace[..|trace|] == trace;
    WatchPrefix(c, trace, n + 1);
    assert trace[..n + 1][..n] == trace[..n];
    j := n;
    if trace[n].Other? {
      j := ReportAfter(c, trace, n + 1);
    }
  }

  /** Conversely, every own report of success or failure follows, with nothing but other requests in
      between, a send: no send is reported twice and nothing else is reported. */
  lemma ReportWasSent(c: Thresholds, trace: seq<Event>, i: nat) returns (j: nat)
    requires i < |trace| && Watch(c, trace).Observation?
    requires trace[i].Own? && (trace[i].call.Success? || trace[i].call.Failure?)
    ensures j < i && trace[j].Sent? && forall k :: j < k < i ==> trace[k].Other?
  {
    WatchPrefix(c, trace, i + 1);
    assert trace[..i + 1][..i] == trace[..i];
    j := SendBefore(c, trace, i);
  }

  lemma {:induction false} SendBefore(c: Thresholds, trace: seq<Event>, i: nat) returns (j: nat)
    requires i <= |trace| && Watch(c, trace[..i]).Observation? && Watch(c, trace[..i]).phase == Sending
    ensures j < i && trace[j].Sent? && forall k :: j < k < i ==> trace[k].Other?
  {
    j := i - 1;
    assert trace[..i][..j] == trace[..j];
    if trace[j].Other? {
      j := SendBefore(c, trace, j);
    }
  }

  class HsmClient {
    const breaker: CircuitBreaker
    const maxRetries: int
    const retryOnStatus: set<nat>
    ghost var trace: seq<Event>

    ghost function Seen(): (o: Observation)
      reads this, breaker
    {
      Watch(breaker.thresholds, trace)
    }

    /** Nothing was out of turn, and the observer knows the breaker. */
    ghost predicate Valid()
      reads this, breaker
    {
      breaker.Valid() && Seen().Observation? && Seen().breaker == After(breaker.thresholds, breaker.calls)
    }

    constructor (breaker: CircuitBreaker, maxRetries: int, retryOnStatus: set<nat>)
      requires breaker.Valid() && breaker.calls == []
      ensures Valid() && trace == []
      ensures this.breaker == breaker && this.maxRetries == maxRetries && this.retryOnStatus == retryOnStatus
    {
      this.breaker, this.maxRetries, this.retryOnStatus, trace := breaker, maxRetries, retryOnStatus, [];
    }

    predicate ShouldRetry(code: nat, attempt: nat) {
      attempt < maxRetries && code in retryOnStatus
    }

    /** How a request ends with this attempt, or that it goes on with the next. */
    function Conclusion(a: Attempt, attempt: nat): (r: Option<RequestResult>) {
      match a.response
      case SendFailed => Some(NetworkError)
      case ReadFailed => Some(ReadError)
      case Status(code) =>
        if code < 400 then Some(Answered)
        else if !ShouldRetry(code, attempt) then Some(HttpError(code))
        else if !a.waited then Some(Cancelled)
        else None
    }

    ghost method Note(e: Event)
      modifies this`trace
      ensures trace == old(trace) + [e] && Seen() == See(breaker.thresholds, old(Seen()), e)
    {
      assert (trace + [e])[..|trace|] == trace;
      trace := trace + [e];
    }

    /** A breaker call, by this request or another. */
    method CallBreaker(call: Call, own: bool) returns (allowed: bool)
      requires breaker.Valid()
      modifies this`trace, breaker
      ensures breaker.Valid() && trace == old(trace) + [if own then Own(call) else Other(call)]
      ensures Seen() == See(breaker.thresholds, old(Seen()), if own then Own(call) else Other(call))
      ensures After(breaker.thresholds, breaker.calls)
           == Next(breaker.thresholds, After(breaker.thresholds, old(breaker.calls)), call)
      ensures call.CanRequest? ==> allowed == Allows(breaker.thresholds, After(breaker.thresholds, old(breaker.calls)), call.at)
    {
      allowed := true;
      ExtendedBy(breaker.thresholds, breaker.calls, call);
      match call {
        case CanRequest(now) => allowed := breaker.MayRequest(now);
        case Success(now) => breaker.RecordSuccess(now);
        case Failure(now) => breaker.RecordFailure(now);
        case Reset(now) => breaker.ResetBreaker(now);
      }
      Note(if own then Own(call) else Other(call));
    }

    /** Other requests use the breaker. */
    method Others(calls: seq<Call>)
      requires Valid()
      modifies this`trace, breaker
      ensures Valid() && old(trace) <= trace && Seen().phase == old(Seen()).phase && Seen().sends == old(Seen()).sends
    {
      for i := 0 to |calls|
        invariant Valid() && old(trace) <= trace && Seen().phase == old(Seen()).phase && Seen().sends == old(Seen()).sends
      {
        var _ := CallBreaker(calls[i], false);
      }
    }

    /** One attempt up to its report. `sent` tells whether the request went out. */
    method Try(a: Attempt) returns (allowed: bool, sent: bool)
      requires Valid() && Seen().phase.Quiet?
      modifies this`trace, breaker
      ensures Valid() && old(trace) <= trace
      ensures sent == (allowed && a.built) && Seen().sends == old(Seen()).sends + (if sent then 1 else 0)
      ensures Seen().phase == if !sent then Asked(allowed)
                              else if a.response.Status? && a.response.code < 400 then Done
                              else Quiet
    {
      Others(a.before);
      allowed := CallBreaker(CanRequest(a.asked), true);
      sent := allowed && a.built;
      if !sent {
        return;
      }
      Others(a.between);
      Note(Sent);
      Others(a.meanwhile);
      var ok := a.response.Status? && a.response.code < 400;
      var _ := CallBreaker(if ok then Success(a.answered) else Failure(a.answered), true);
    }

    /** The answer to attempt `k` is a listed error status, there are retries left and the wait ran to
        its end. */
    ghost predicate Retried(a: Attempt, k: nat) {
      a.built && a.response.Status? && a.response.code >= 400 && a.response.code in retryOnStatus && k < maxRetries && a.waited
    }

    /** What a result says about the last attempt `k`. */
    ghost predicate EndsAt(a: Attempt, k: nat, r: RequestResult) {
      match r
      case CircuitOpen => true
      case NotBuilt => !a.built
      case Answered => a.built && a.response.Status? && a.response.code < 400
      case NetworkError => a.built && a.response == SendFailed
      case ReadError => a.built && a.response == ReadFailed
      case HttpError(code) => a.built && a.response == Status(code) && code >= 400 && !(k < maxRetries && code in retryOnStatus)
      case Cancelled => a.built && Retried(a.(waited := true), k) && !a.waited
    }

    /** `request`: whatever the attempts meet and whatever other requests do to the breaker meanwhile,
        nothing is done out of turn, the request is answered exactly when its last report is a success,
        and at most `maxRetries + 1` requests are sent. It ends with attempt `last`, for the reason its
        result names, and goes on with the next attempt exactly after those that are to be retried; all
        of them are sent, except a last one that the breaker refuses or that cannot be built. */
    method Request(script: nat -> Attempt, attempt: nat) returns (r: RequestResult, ghost last: nat)
      requires Valid() && Seen().phase.Quiet?
      modifies this`trace, breaker
      ensures Valid() && old(trace) <= trace
      ensures Seen().sends <= old(Seen()).sends + if attempt < maxRetries then maxRetries - attempt + 1 else 1
      ensures Seen().phase == match r
                              case Answered => Done
                              case CircuitOpen => Asked(false)
                              case NotBuilt => Asked(true)
                              case _ => Quiet
      ensures attempt <= last && (forall k :: attempt <= k < last ==> Retried(script(k), k)) && EndsAt(script(last), last, r)
      ensures Seen().sends == old(Seen()).sends + last - attempt + if r == CircuitOpen || r == NotBuilt then 0 else 1
      decreases if attempt < maxRetries then maxRetries - attempt else 0
    {
      var a := script(attempt);
      var allowed, sent := Try(a);
      last := attempt;
      if !allowed {
        return CircuitOpen, last;
      }
      if !sent {
        return NotBuilt, last;
      }
      var end := Conclusion(a, attempt);
      if end.Some? {
        return end.value, last;
      }
      r, last := Request(script, attempt + 1);
    }

    /** A whole request, from its first attempt. */
    method Send(script: nat -> Attempt) returns (r: RequestResult, ghost last: nat)
      requires Valid() && Seen().phase != Sending
      modifies this`trace, breaker
      ensures Valid() && old(trace) + [Enter] <= trace && Seen().phase != Sending && (r == Answered <==> Seen().phase == Done)
      ensures Seen().sends <= if maxRetries > 0 then maxRetries + 1 else 1
      ensures (forall k :: 0 <= k < last ==> Retried(script(k), k)) && EndsAt(script(last), last, r)
      ensures Seen().sends == last + if r == CircuitOpen || r == NotBuilt then 0 else 1
    {
      Note(Enter);
      r, last := Request(script, 0);
    }
  }

  lemma ExtendedBy(c: Thresholds, calls: seq<Call>, call: Call)
    ensures After(c, calls + [call]) == Next(c, After(c, calls), call)
  {
    assert (calls + [call])[..|calls|] == calls;
  }
}
