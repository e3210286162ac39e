/** What a pool admits: a place among its `max_in_flight`, then its rate. */
module PoolQuota {
  import opened Prelude
  import opened TokenBucket

  datatype Limit = MaxInFlight | MaxRequestsPerSecond

  class Quota {
    const maxInFlight: Option<nat>
    const rate: Option<Bucket>
    var inFlight: nat

    constructor (maxInFlight: Option<nat>, perSecond: Option<Count>)
      ensures this.maxInFlight == maxInFlight && inFlight == 0
      ensures rate.Some? <==> perSecond.Some?
      ensures rate.Some? ==> fresh(rate.value) && rate.value.rate == rate.value.burst == perSecond.value
    {
      this.maxInFlight := maxInFlight;
      inFlight := 0;
      if perSecond.Some? {
        var bucket := new Bucket(perSecond.value, perSecond.value);
        rate := Some(bucket);
      } else {
        rate := None;
      }
    }

    ghost function Owned(): set<object> {
      {this} + if rate.Some? then {rate.value} else {}
    }

    /** A request over the in-flight cap spends none of the rate; one over the
        rate gives its place back. */
    method Admit(now: int) returns (refused: Option<Limit>)
      modifies Owned()
      ensures refused == Some(MaxInFlight) <==> maxInFlight.Some? && old(inFlight) >= maxInFlight.value
      ensures refused == Some(MaxInFlight) && rate.Some? ==> rate.value.level == old(rate.value.level)
      ensures refused != Some(MaxInFlight) && rate.Some? ==>
                (rate.value.level, refused.None?) == old(rate.value.level).Take(now, rate.value.rate, rate.value.burst)
      ensures refused == Some(MaxRequestsPerSecond) ==> rate.Some?
      ensures inFlight == old(inFlight) + if refused.None? && maxInFlight.Some? then 1 else 0
    {
      if maxInFlight.Some? {
        var already := inFlight;
        inFlight := inFlight + 1;
        if already >= maxInFlight.value {
          inFlight := inFlight - 1;
          return Some(MaxInFlight);
        }
      }
      if rate.Some? {
        var granted := rate.value.TryAcquire(now);
        if !granted {
          if maxInFlight.Some? {
            inFlight := inFlight - 1;
          }
          return Some(MaxRequestsPerSecond);
        }
      }
      refused := None;
    }

    /** `InflightGuard::drop`. */
    method Release()
      requires maxInFlight.Some? ==> inFlight > 0
      modifies this
      ensures inFlight == old(inFlight) - if maxInFlight.Some? then 1 else 0
    {
      if maxInFlight.Some? {
        inFlight := inFlight - 1;
      }
    }
  }
}

/** The attempts at getting a request answered by a pool: a second one at most,
    and that only for what may be done twice. */
module Forward {
  import opened Prelude
  import opened PoolQuota

  const MAX_ATTEMPTS: nat := 2

  datatype Method = GET | HEAD | OPTIONS | TRACE | DELETE | PUT | POST | PATCH | CONNECT | Extension(name: string)

  /** Idempotent as section 9.2.2 of RFC 9110 defines it: the safe methods, PUT
      and DELETE. */
  predicate Idempotent(m: Method) {
    m in {GET, HEAD, OPTIONS, TRACE, PUT, DELETE}
  }

  predicate IsReplayable(m: Method, hasBody: bool) {
    m in {GET, HEAD, OPTIONS, TRACE, DELETE} && !hasBody
  }

  datatype FailureKind =
    ConnectTimeout | ConnectRefused | ConnectError | Tls | Reset | ConnectionLimit | Timeout | Other

  predicate IsTheBackends(kind: FailureKind) {
    kind != ConnectionLimit
  }

  predicate IsRetryable(kind: FailureKind) {
    kind !in {ConnectionLimit, Timeout}
  }

  predicate MayRetry(replayable: bool, attempts: nat, responseStarted: bool, failure: FailureKind) {
    replayable && !responseStarted && IsRetryable(failure) && attempts < MAX_ATTEMPTS
  }

  /** The request as it is to reach the backend; `body` is `None` when there is
      none. */
  datatype Request = Request(
    verb: Method,
    target: string,
    headers: seq<(string, string)>,
    body: Option<string>,
    isGrpc: bool,
    namesAPath: bool,
    asksForUpgrade: bool)

  datatype Version = Http11 | Http2

  datatype Sent = Sent(verb: Method, version: Version, target: string, headers: seq<(string, string)>, body: string)

  /** What one send of `request` carries. */
  function AsSent(r: Request): Sent {
    Sent(r.verb, if r.isGrpc then Http2 else Http11, r.target, r.headers, r.body.GetOr(""))
  }

  predicate Replayable(r: Request) {
    IsReplayable(r.verb, r.body.Some?)
  }

  /** What would happen to an attempt: the backend selected for it, how sending
      comes out, and whether the request was overdue before it did; whether by
      then the client's body had failed, or was being waited for. */
  datatype Turn = Turn(
    backend: Option<string>,
    sending: Result<nat, FailureKind>,
    overdue: bool,
    clientFailed: bool,
    waitingForClient: bool)

  datatype Refusal =
    | UnsupportedTarget | UpgradeNotSupported | PoolFull | PoolRateLimited
    | NoHealthyUpstream | RequestBodyTimeout | Upstream(kind: FailureKind)

  datatype Unanswered = Refused(refusal: Refusal) | ClientGone

  type Answer = Result<nat, Unanswered>

  /** A failure that another attempt may follow. */
  predicate FailsRetryably(r: Request, t: Turn) {
    && t.backend.Some? && (r.isGrpc || !t.overdue)
    && t.sending.Err? && !t.clientFailed && IsRetryable(t.sending.error)
  }

  /** How a forward ends whose last attempt goes as `t`. */
  function EndsWith(r: Request, t: Turn): Answer {
    if t.backend.None? then Err(Refused(NoHealthyUpstream))
    else if !r.isGrpc && t.overdue then
      Err(Refused(if t.waitingForClient then RequestBodyTimeout else Upstream(Timeout)))
    else match t.sending
      case Ok(status) => Ok(status)
      case Err(kind) => Err(if t.clientFailed then ClientGone else Refused(Upstream(kind)))
  }

  /** The forward of an admitted request: the second attempt is made if and only
      if the request can be replayed and the first failed retryably. */
  function Forwarded(r: Request, turns: seq<Turn>): Answer
    requires |turns| >= MAX_ATTEMPTS
  {
    if Replayable(r) && FailsRetryably(r, turns[0]) then EndsWith(r, turns[1]) else EndsWith(r, turns[0])
  }

  /** `sends` is everything put on the wire for the request, and `busy` whether
      its record still holds its place in the pool when this returns. */
  method ForwardRequest(quota: Quota, r: Request, turns: seq<Turn>, now: int)
    returns (answer: Answer, sends: seq<Sent>, busy: bool, ghost refused: Option<Limit>)
    requires |turns| >= MAX_ATTEMPTS
    modifies quota.Owned()
    // At most two sends, all of them the request whole.
    ensures |sends| <= MAX_ATTEMPTS && forall i :: 0 <= i < |sends| ==> sends[i] == AsSent(r)
    // A second one only of what may be performed twice, has no body, and had no response.
    ensures |sends| == 2 ==>
              Idempotent(r.verb) && r.body.None? && FailsRetryably(r, turns[0]) && turns[1].backend.Some?
    // Refused before it counts for anything, refused by the pool, or forwarded.
    ensures !r.namesAPath ==> answer == Err(Refused(UnsupportedTarget)) && sends == []
    ensures r.namesAPath && r.asksForUpgrade ==> answer == Err(Refused(UpgradeNotSupported)) && sends == []
    ensures !r.namesAPath || r.asksForUpgrade ==>
              quota.inFlight == old(quota.inFlight)
              && (quota.rate.Some? ==> quota.rate.value.level == old(quota.rate.value.level))
    ensures r.namesAPath && !r.asksForUpgrade ==>
              match refused
              case Some(limit) =>
                && sends == []
                && answer == Err(Refused(if limit == MaxInFlight then PoolFull else PoolRateLimited))
              case None => answer == Forwarded(r, turns)
    // The pool is charged once, however many attempts: one place, one permit.
    ensures r.namesAPath && !r.asksForUpgrade ==>
              && (refused == Some(MaxInFlight) <==>
                    quota.maxInFlight.Some? && old(quota.inFlight) >= quota.maxInFlight.value)
              && (quota.rate.Some? && refused != Some(MaxInFlight) ==>
                    (quota.rate.value.level, refused.None?) ==
                    old(quota.rate.value.level).Take(now, quota.rate.value.rate, quota.rate.value.burst))
              && (quota.rate.None? ==> refused != Some(MaxRequestsPerSecond))
    ensures busy <==> sends != []
    ensures quota.inFlight == old(quota.inFlight) + if busy && quota.maxInFlight.Some? then 1 else 0
  {
    sends, busy, refused := [], false, None;
    if !r.namesAPath {
      return Err(Refused(UnsupportedTarget)), [], false, None;
    }
    if r.asksForUpgrade {
      return Err(Refused(UpgradeNotSupported)), [], false, None;
    }
    var limit := quota.Admit(now);
    if limit.Some? {
      return Err(Refused(if limit.value == MaxInFlight then PoolFull else PoolRateLimited)), [], false, limit;
    }
    var headers := r.headers;
    var replayable := IsReplayable(r.verb, r.body.Some?);
    var streamed := if replayable then None else Some(r.body.GetOr(""));
    var attempts := 0;
    while true
      invariant attempts < MAX_ATTEMPTS && |sends| == attempts
      invariant headers == r.headers
      invariant streamed == if replayable then None else Some(r.body.GetOr(""))
      invariant attempts > 0 ==> replayable && FailsRetryably(r, turns[0]) && busy
      invariant attempts == 0 ==> !busy
      invariant forall i :: 0 <= i < |sends| ==> sends[i] == AsSent(r)
      invariant quota.inFlight == old(quota.inFlight) + if quota.maxInFlight.Some? then 1 else 0
      decreases MAX_ATTEMPTS - attempts
    {
      var turn := turns[attempts];
      if turn.backend.None? {
        if !busy {
          quota.Release();
        }
        return Err(Refused(NoHealthyUpstream)), sends, busy, None;
      }
      attempts := attempts + 1;
      busy := true;
      var body := streamed.GetOr("");
      streamed := None;
      // Moved out, not copied, when there is no attempt left to need them.
      var mayFollow := replayable && attempts < MAX_ATTEMPTS;
      var carried := headers;
      if !mayFollow {
        headers := [];
      }
      sends := sends + [Sent(r.verb, if r.isGrpc then Http2 else Http11, r.target, carried, body)];
      if !r.isGrpc && turn.overdue {
        return Err(Refused(if turn.waitingForClient then RequestBodyTimeout else Upstream(Timeout))), sends, busy, None;
      }
      match turn.sending {
        case Ok(status) =>
          return Ok(status), sends, busy, None;
        case Err(kind) =>
          if turn.clientFailed {
            return Err(ClientGone), sends, busy, None;
          }
          if !IsTheBackends(kind) {
            return Err(Refused(Upstream(kind))), sends, busy, None;
          }
          var again := MayRetry(replayable, attempts, false, kind);
          if !again {
            return Err(Refused(Upstream(kind))), sends, busy, None;
          }
      }
    }
  }
}
