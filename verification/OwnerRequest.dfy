/** One owner request: a bounded retry loop with back-off that re-enters itself
    at most once, after a refresh of the access token. */
module OwnerRequest {

  const MAX_RETRIES: nat := 2

  /** A parsed response body; an empty one reads as an object without members. */
  datatype Json = Null | Value(text: string)

  /** What `fetch` or reading the body rejects with. */
  datatype Fault = Abort | TypeFault | OtherFault(message: string)

  datatype Body = Lost(fault: Fault) | Malformed | Parsed(json: Json)

  /** What the network answers to one `fetch`.  `refreshed` tells whether a
      token refresh would give a new session then. */
  datatype Attempt = Threw(fault: Fault) | Responded(status: int, body: Body, refreshed: bool)

  /** The errors a request ends with: time-out, the server's own message, an
      unreadable body, or the fault of the last attempt. */
  datatype Failure = TimedOut | ApiError(status: int) | BadBody(status: int) | Raised(fault: Fault)

  datatype Result = Payload(json: Json) | Failed(failure: Failure)

  /** A finished request: its result, the number of fetches, the milliseconds
      spent in back-off and the refreshes that were followed. */
  datatype Outcome = Outcome(result: Result, fetches: nat, waited: nat, follows: nat)

  predicate IsRetryableStatus(status: int) {
    status == 408 || status == 429 || status >= 500
  }

  predicate IsRetryableFault(fault: Fault) {
    fault.Abort? || fault.TypeFault?
  }

  predicate IsOk(status: int) {
    200 <= status <= 299
  }

  /** The loop, statement by statement.  `network(n)` is what the `n`-th fetch meets. */
  method RequestOwnerJson(network: nat -> Attempt, start: nat, allowRefresh: bool) returns (outcome: Outcome)
    ensures outcome == Request(network, start, allowRefresh)
    decreases allowRefresh
  {
    var attempt := 0;
    var waited := 0;
    while attempt <= MAX_RETRIES
      invariant 0 <= attempt <= MAX_RETRIES
      invariant waited == BackOff(attempt)
      invariant RetriedUpTo(network, start, allowRefresh, attempt)
      decreases MAX_RETRIES - attempt
    {
      var response := network(start + attempt);
      var fault: Fault;
      if response.Threw? {
        fault := response.fault;
      } else {
        if response.status == 401 && allowRefresh {
          if response.refreshed {
            var rest := RequestOwnerJson(network, start + attempt + 1, false);
            Refreshed(network, start, allowRefresh, attempt);
            return Outcome(rest.result, attempt + 1 + rest.fetches, waited + rest.waited, 1 + rest.follows);
          }
        }
        if IsRetryableStatus(response.status) && attempt < MAX_RETRIES {
          Retried(network, start, allowRefresh, attempt);
          waited := waited + 400 * (attempt + 1);
          attempt := attempt + 1;
          continue;
        }
        match response.body {
          case Malformed =>
            Ended(network, start, allowRefresh, attempt);
            return Outcome(Failed(BadBody(response.status)), attempt + 1, waited, 0);
          case Lost(lost) =>
            fault := lost;
          case Parsed(json) =>
            if IsOk(response.status) {
              Ended(network, start, allowRefresh, attempt);
              return Outcome(Payload(json), attempt + 1, waited, 0);
            }
            if json.Value? {
              Ended(network, start, allowRefresh, attempt);
              return Outcome(Failed(ApiError(response.status)), attempt + 1, waited, 0);
            }
            // reading the message of a null body throws
            fault := TypeFault;
        }
      }
      if attempt < MAX_RETRIES && IsRetryableFault(fault) {
        Retried(network, start, allowRefresh, attempt);
        waited := waited + 400 * (attempt + 1);
        attempt := attempt + 1;
        continue;
      }
      Ended(network, start, allowRefresh, attempt);
      return Outcome(Failed(if fault.Abort? then TimedOut else Raised(fault)), attempt + 1, waited, 0);
    }
    // the throw behind the loop is never reached
    assert false;
  }

  // ---- the same request without a loop ----

  /** The fault behind an attempt that gave no usable answer. */
  function FaultOf(a: Attempt): (fault: Fault)
    requires a.Threw? || a.body.Lost? || a.body == Parsed(Null)
  {
    if a.Threw? then a.fault else if a.body.Lost? then a.body.fault else TypeFault
  }

  predicate Follows(a: Attempt, allowRefresh: bool) {
    a.Responded? && a.status == 401 && allowRefresh && a.refreshed
  }

  predicate Faulty(a: Attempt) {
    a.Threw? || a.body.Lost? || (a.body == Parsed(Null) && !IsOk(a.status))
  }

  /** An attempt after which another one is worth while. */
  predicate Transient(a: Attempt, allowRefresh: bool) {
    && !Follows(a, allowRefresh)
    && ((a.Responded? && IsRetryableStatus(a.status)) || (Faulty(a) && IsRetryableFault(FaultOf(a))))
  }

  /** What an attempt means when it is not retried. */
  function Verdict(a: Attempt): Result {
    if Faulty(a) then Failed(if FaultOf(a).Abort? then TimedOut else Raised(FaultOf(a)))
    else if a.body.Malformed? then Failed(BadBody(a.status))
    else if IsOk(a.status) then Payload(a.body.json)
    else Failed(ApiError(a.status))
  }

  /** The position of the deciding attempt: the first that is not transient, or the last. */
  function Deciding(network: nat -> Attempt, start: nat, allowRefresh: bool): (k: nat)
    ensures k <= MAX_RETRIES
  {
    if !Transient(network(start), allowRefresh) then 0
    else if !Transient(network(start + 1), allowRefresh) then 1
    else 2
  }

  function BackOff(retries: nat): nat {
    if retries == 0 then 0 else BackOff(retries - 1) + 400 * retries
  }

  function Request(network: nat -> Attempt, start: nat, allowRefresh: bool): Outcome
    decreases allowRefresh
  {
    var k := Deciding(network, start, allowRefresh);
    var a := network(start + k);
    if Follows(a, allowRefresh) then
      var rest := Request(network, start + k + 1, false);
      Outcome(rest.result, k + 1 + rest.fetches, BackOff(k) + rest.waited, 1 + rest.follows)
    else Outcome(Verdict(a), k + 1, BackOff(k), 0)
  }

  predicate RetriedUpTo(network: nat -> Attempt, start: nat, allowRefresh: bool, attempt: nat) {
    && (attempt > 0 ==> Transient(network(start), allowRefresh))
    && (attempt > 1 ==> Transient(network(start + 1), allowRefresh))
  }

  /** An attempt that follows a refresh ends the loop with a second request. */
  lemma Refreshed(network: nat -> Attempt, start: nat, allowRefresh: bool, attempt: nat)
    requires attempt <= MAX_RETRIES && RetriedUpTo(network, start, allowRefresh, attempt)
    requires Follows(network(start + attempt), allowRefresh)
    ensures var rest := Request(network, start + attempt + 1, false);
      Request(network, start, allowRefresh)
        == Outcome(rest.result, attempt + 1 + rest.fetches, BackOff(attempt) + rest.waited, 1 + rest.follows)
  {
    assert Deciding(network, start, allowRefresh) == attempt;
  }

  /** An attempt that is not transient, or the last one, ends it with its verdict. */
  lemma Ended(network: nat -> Attempt, start: nat, allowRefresh: bool, attempt: nat)
    requires attempt <= MAX_RETRIES && RetriedUpTo(network, start, allowRefresh, attempt)
    requires !Follows(network(start + attempt), allowRefresh)
    requires attempt < MAX_RETRIES ==> !Transient(network(start + attempt), allowRefresh)
    ensures Request(network, start, allowRefresh)
      == Outcome(Verdict(network(start + attempt)), attempt + 1, BackOff(attempt), 0)
  {
    assert Deciding(network, start, allowRefresh) == attempt;
  }

  /** A transient one goes on, after its back-off. */
  lemma Retried(network: nat -> Attempt, start: nat, allowRefresh: bool, attempt: nat)
    requires attempt < MAX_RETRIES && RetriedUpTo(network, start, allowRefresh, attempt)
    requires Transient(network(start + attempt), allowRefresh)
    ensures RetriedUpTo(network, start, allowRefresh, attempt + 1)
    ensures BackOff(attempt + 1) == BackOff(attempt) + 400 * (attempt + 1)
  {}

  lemma BackOffBounded(retries: nat)
    requires retries <= MAX_RETRIES
    ensures BackOff(retries) <= 1200
  {}

  /** Every request makes at most six fetches, follows at most one refresh and
      waits at most 2,400 milliseconds. */
  lemma {:induction false} RequestBounds(network: nat -> Attempt, start: nat, allowRefresh: bool)
    ensures var o := Request(network, start, allowRefresh);
      && 1 <= o.fetches <= 3 * (1 + o.follows)
      && o.follows <= (if allowRefresh then 1 else 0)
      && o.waited <= 1200 * (1 + o.follows)
    decreases allowRefresh
  {
    var k := Deciding(network, start, allowRefresh);
    BackOffBounded(k);
    if !Follows(network(start + k), allowRefresh) {
    } else {
      RequestBounds(network, start + k + 1, false);
    }
  }

  /** The attempt that a request ends with. */
  function LastAttempt(network: nat -> Attempt, start: nat, allowRefresh: bool): Attempt {
    RequestBounds(network, start, allowRefresh);
    network(start + Request(network, start, allowRefresh).fetches - 1)
  }

  /** A request returns a payload exactly when its last fetch met an ok response
      with that payload. */
  lemma PayloadsAreOkBodies(network: nat -> Attempt, start: nat, allowRefresh: bool, json: Json)
    ensures var last := LastAttempt(network, start, allowRefresh);
      Request(network, start, allowRefresh).result == Payload(json) <==>
        last.Responded? && 200 <= last.status <= 299 && last.body == Parsed(json)
  {
    ResultIsVerdict(network, start, allowRefresh);
    VerdictIsPayload(LastAttempt(network, start, allowRefresh), json);
  }

  lemma {:induction false} ResultIsVerdict(network: nat -> Attempt, start: nat, allowRefresh: bool)
    ensures Request(network, start, allowRefresh).result == Verdict(LastAttempt(network, start, allowRefresh))
    decreases allowRefresh
  {
    var k := Deciding(network, start, allowRefresh);
    LastOfRequest(network, start, allowRefresh);
    if Follows(network(start + k), allowRefresh) {
      ResultIsVerdict(network, start + k + 1, false);
    }
  }

  lemma VerdictIsPayload(a: Attempt, json: Json)
    ensures Verdict(a) == Payload(json) <==> a.Responded? && 200 <= a.status <= 299 && a.body == Parsed(json)
  {}

  lemma LastOfRequest(network: nat -> Attempt, start: nat, allowRefresh: bool)
    ensures var k := Deciding(network, start, allowRefresh);
      LastAttempt(network, start, allowRefresh) ==
        if Follows(network(start + k), allowRefresh) then LastAttempt(network, start + k + 1, false)
        else network(start + k)
  {}

  lemma FetchesOfRequest(network: nat -> Attempt, start: nat, allowRefresh: bool)
    ensures var k := Deciding(network, start, allowRefresh);
      Request(network, start, allowRefresh).fetches == k + 1 +
        if Follows(network(start + k), allowRefresh) then Request(network, start + k + 1, false).fetches else 0
  {}

  lemma TransientBefore(network: nat -> Attempt, start: nat, allowRefresh: bool, n: nat)
    requires n < Deciding(network, start, allowRefresh)
    ensures Transient(network(start + n), allowRefresh)
  {}

  /** A fetch before the last one was transient or led to the one refresh: no
      answer that would have settled the request is skipped. */
  lemma {:induction false} NothingUsableSkipped(network: nat -> Attempt, start: nat, allowRefresh: bool, n: nat)
    requires n + 1 < Request(network, start, allowRefresh).fetches
    ensures var a := network(start + n);
      Transient(a, allowRefresh) || Follows(a, allowRefresh) || Transient(a, false)
    decreases allowRefresh
  {
    var k := Deciding(network, start, allowRefresh);
    FetchesOfRequest(network, start, allowRefresh);
    if n < k {
      TransientBefore(network, start, allowRefresh, n);
    } else if n > k {
      assert start + k + 1 + (n - k - 1) == start + n;
      NothingUsableSkipped(network, start + k + 1, false, n - k - 1);
    }
  }

  /** The bounds are attained: a server that fails, then lets the token expire, then fails. */
  lemma RequestBoundsAttained()
    ensures var down: nat -> Attempt := n => Responded(if n == 2 then 401 else 503, Malformed, true);
      Request(down, 0, true) == Outcome(Failed(BadBody(503)), 6, 2400, 1)
  {}

  // ---- which answers are asked for again ----

  /** The server asks for another try: time-out, too many requests, or an error of its own. */
  predicate Busy(a: Attempt) {
    a.Responded? && (a.status == 408 || a.status == 429 || a.status >= 500)
  }

  /** The fetch or the body was aborted or lost on the way, or a failure has no body to read. */
  predicate LostOnTheWay(a: Attempt) {
    || (a.Threw? && a.fault in {Abort, TypeFault})
    || (a.Responded? && a.body in {Lost(Abort), Lost(TypeFault)})
    || (a.Responded? && a.body == Parsed(Null) && !(200 <= a.status <= 299))
  }

  /** The server refuses the token, and a refresh gives a new one. */
  predicate Renewed(a: Attempt, allowRefresh: bool) {
    allowRefresh && a.Responded? && a.status == 401 && a.refreshed
  }

  predicate AskedAgain(a: Attempt, allowRefresh: bool) {
    (Busy(a) || LostOnTheWay(a)) && !Renewed(a, allowRefresh)
  }

  lemma AskedAgainIff(a: Attempt, allowRefresh: bool)
    ensures AskedAgain(a, allowRefresh) <==> Transient(a, allowRefresh)
    ensures Renewed(a, allowRefresh) <==> Follows(a, allowRefresh)
  {}

  /** How many answers a request looks at before a refresh, if there is one: up
      to the first that is not asked for again, and at most three. */
  function AnswersLookedAt(network: nat -> Attempt, start: nat, allowRefresh: bool): nat {
    if !AskedAgain(network(start), allowRefresh) then 1
    else if !AskedAgain(network(start + 1), allowRefresh) then 2
    else 3
  }

  /** What a request does, by the answers alone: it fetches and waits (400
      milliseconds before the second fetch, 800 before the third) until an answer
      is not asked for again, and starts over once if that one was renewed. */
  lemma RequestFollowsAnswers(network: nat -> Attempt, start: nat, allowRefresh: bool)
    ensures var o, n := Request(network, start, allowRefresh), AnswersLookedAt(network, start, allowRefresh);
      var waited := if n == 1 then 0 else if n == 2 then 400 else 1200;
      if Renewed(network(start + n - 1), allowRefresh) then
        var rest := Request(network, start + n, false);
        o == Outcome(rest.result, n + rest.fetches, waited + rest.waited, 1 + rest.follows)
      else o.fetches == n && o.waited == waited && o.follows == 0
  {
    var k := Deciding(network, start, allowRefresh);
    DecidingIsLookedAt(network, start, allowRefresh);
    RequestDecidedBy(network, start, allowRefresh, k, network(start + k));
    BackOffs(k);
  }

  lemma RequestDecidedBy(network: nat -> Attempt, start: nat, allowRefresh: bool, k: nat, a: Attempt)
    requires k == Deciding(network, start, allowRefresh) && a == network(start + k)
    ensures var o, rest := Request(network, start, allowRefresh), Request(network, start + k + 1, false);
      o == if Renewed(a, allowRefresh)
           then Outcome(rest.result, k + 1 + rest.fetches, BackOff(k) + rest.waited, 1 + rest.follows)
           else Outcome(Verdict(a), k + 1, BackOff(k), 0)
  {
    AskedAgainIff(a, allowRefresh);
  }

  lemma DecidingIsLookedAt(network: nat -> Attempt, start: nat, allowRefresh: bool)
    ensures AnswersLookedAt(network, start, allowRefresh) == Deciding(network, start, allowRefresh) + 1
  {
    AskedAgainIff(network(start), allowRefresh);
    AskedAgainIff(network(start + 1), allowRefresh);
  }

  lemma BackOffs(retries: nat)
    requires retries <= MAX_RETRIES
    ensures BackOff(retries) == if retries == 0 then 0 else if retries == 1 then 400 else 1200
  {
    assert BackOff(1) == 400 && BackOff(2) == 1200;
  }

  /** A first answer that is busy or lost is asked for again; any other parsed
      one, unless it was renewed or is the null body of a failure, ends the request. */
  lemma FirstAnswer(network: nat -> Attempt, start: nat, allowRefresh: bool)
    ensures var o, first := Request(network, start, allowRefresh), network(start);
      && (Busy(first) || (first.Threw? && first.fault in {Abort, TypeFault}) ==> o.fetches >= 2)
      && (first.Responded? && first.body.Parsed? && first.body.json.Value? ==>
            Busy(first) || Renewed(first, allowRefresh) || o.fetches == 1)
  {
    RequestFollowsAnswers(network, start, allowRefresh);
    RequestBounds(network, start + 1, false);
    RequestBounds(network, start + 2, false);
    RequestBounds(network, start + 3, false);
  }

  /** A request that is not renewed ends on a busy or lost answer only as its third. */
  lemma BusyEndsOnlyThird(network: nat -> Attempt, start: nat, allowRefresh: bool)
    requires Request(network, start, allowRefresh).follows == 0
    requires var last := LastAttempt(network, start, allowRefresh); Busy(last) || LostOnTheWay(last)
    ensures Request(network, start, allowRefresh).fetches == 3
  {
    RequestFollowsAnswers(network, start, allowRefresh);
  }

  // ---- how a request fails ----

  /** The failure that an answer means when it is not asked for again. */
  predicate FailsWith(a: Attempt, failure: Failure) {
    match failure
    case TimedOut => a == Threw(Abort) || (a.Responded? && a.body == Lost(Abort))
    case BadBody(status) => a.Responded? && a.status == status && a.body == Malformed
    case ApiError(status) =>
      a.Responded? && a.status == status && !(200 <= status <= 299) && a.body.Parsed? && a.body.json.Value?
    case Raised(fault) =>
      || (fault != Abort && (a == Threw(fault) || (a.Responded? && a.body == Lost(fault))))
      || (fault == TypeFault && a.Responded? && !(200 <= a.status <= 299) && a.body == Parsed(Null))
  }

  lemma VerdictIsFailure(a: Attempt, failure: Failure)
    ensures Verdict(a) == Failed(failure) <==> FailsWith(a, failure)
  {}

  /** The failure of a request is that of its last answer: a time-out when it was
      aborted, an unreadable body, the server's own error, or the fault that was
      raised, reading the message of a null body being one. */
  lemma FailureIsOfLast(network: nat -> Attempt, start: nat, allowRefresh: bool, failure: Failure)
    ensures Request(network, start, allowRefresh).result == Failed(failure)
      <==> FailsWith(LastAttempt(network, start, allowRefresh), failure)
  {
    ResultIsVerdict(network, start, allowRefresh);
    VerdictIsFailure(LastAttempt(network, start, allowRefresh), failure);
  }
}
