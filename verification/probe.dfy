/**
 * The reachability probe (`probe_backend_url`) and endpoint auto-detection
 * (`auto_detect_endpoint`). The network is a parameter: `outcome(i)` is what attempt
 * `i` (counting from 0) would meet. The one-second pauses are counted, not timed.
 */
module Probe {
  import opened Wrappers
  import opened Backends

  /** What one probe attempt meets: an HTTP status, an `aiohttp.ClientError`, or any other exception. */
  datatype Attempt = Status(code: int) | ClientErr | OtherErr

  /** The probe accepts 200 and 201 only. */
  predicate Accepted(a: Attempt) {
    a.Status? && (a.code == 200 || a.code == 201)
  }

  /** An attempt the loop moves past: a rejected status or a client error. */
  predicate Retryable(a: Attempt) {
    !Accepted(a) && !a.OtherErr?
  }

  /** Attempts the probe may make: `range(retries)` is empty for a non-positive count. */
  function Budget(retries: int): nat {
    if retries > 0 then retries else 0
  }

  /** The pauses taken during the first `n` attempts: one after each client error that is not the last permitted attempt. */
  function SleepsIn(outcome: nat -> Attempt, n: nat, retries: int): nat {
    if n == 0 then 0
    else SleepsIn(outcome, n - 1, retries) + (if outcome(n - 1).ClientErr? && n - 1 < retries - 1 then 1 else 0)
  }

  /** Some permitted attempt is accepted, and every attempt before it was one the loop moves past. */
  ghost predicate Reaches(outcome: nat -> Attempt, retries: int) {
    exists i: nat :: i < retries && Accepted(outcome(i)) && forall j: nat :: j < i ==> Retryable(outcome(j))
  }

  /**
   * `probe_backend_url`: at most `retries` attempts; true at the first accepted one;
   * a client error pauses unless it was the last attempt, a rejected status does not;
   * any other exception ends the probe with false; the probe never raises.
   * `request` is what every attempt sends.
   */
  method ProbeBackendUrl(url: string, backend: string, apiKey: string, retries: int, outcome: nat -> Attempt)
    returns (reachable: bool, attempts: nat, sleeps: nat, request: ProbeRequest)
    ensures request == ProbeRequestFor(url, backend, apiKey)
    ensures reachable <==> Reaches(outcome, retries)
    ensures attempts <= Budget(retries)
    ensures forall j: nat :: j + 1 < attempts ==> Retryable(outcome(j))
    ensures reachable ==> attempts >= 1 && Accepted(outcome(attempts - 1))
    ensures !reachable ==>
      || (attempts == Budget(retries) && forall j: nat :: j < attempts ==> Retryable(outcome(j)))
      || (attempts >= 1 && outcome(attempts - 1).OtherErr?)
    ensures sleeps == SleepsIn(outcome, attempts, retries)
  {
    request := ProbeRequestFor(url, backend, apiKey);
    reachable, attempts, sleeps := false, 0, 0;
    var attempt: nat := 0;
    while attempt < retries
      invariant attempt <= Budget(retries)
      invariant attempts == attempt
      invariant forall j: nat :: j < attempt ==> Retryable(outcome(j))
      invariant sleeps == SleepsIn(outcome, attempt, retries)
      decreases retries - attempt
    {
      attempts := attempts + 1;
      match outcome(attempt) {
        case Status(code) =>
          if code == 200 || code == 201 {
            reachable := true;
            return;
          }
        case ClientErr =>
          if attempt < retries - 1 {
            sleeps := sleeps + 1;
          }
        case OtherErr =>
          // escapes the loop to the outer handler, which logs it and reports false
          forall i: nat | i < retries && Accepted(outcome(i))
            ensures exists j: nat :: j < i && !Retryable(outcome(j))
          {
            assert i > attempt;
          }
          return;
      }
      attempt := attempt + 1;
    }
  }

  /**
   * `auto_detect_endpoint`: the backend's default URL when three probe attempts reach
   * it, otherwise nothing; an unregistered backend is never probed. `probed` is the
   * request the probe sent, if any.
   */
  method AutoDetectEndpoint(backend: string, apiKey: string, outcome: nat -> Attempt)
    returns (endpoint: Option<string>, attempts: nat, probed: Option<ProbeRequest>)
    ensures Lookup(backend).None? ==> endpoint.None? && attempts == 0 && probed.None?
    ensures Lookup(backend).Some? ==>
      probed == Some(ProbeRequestFor(Lookup(backend).value.defaultUrl, backend, apiKey))
    ensures Lookup(backend).Some? ==>
      (endpoint == Some(Lookup(backend).value.defaultUrl) <==> Reaches(outcome, 3))
    ensures Lookup(backend).Some? && !Reaches(outcome, 3) ==> endpoint.None?
    ensures attempts <= 3
  {
    match Lookup(backend) {
      case None =>
        endpoint, attempts, probed := None, 0, None;
      case Some(config) =>
        var reachable, sleeps, request;
        reachable, attempts, sleeps, request := ProbeBackendUrl(config.defaultUrl, backend, apiKey, 3, outcome);
        endpoint := if reachable then Some(config.defaultUrl) else None;
        probed := Some(request);
    }
  }

  /** With client errors only, every permitted attempt but the last is followed by a pause. */
  lemma {:induction false} ClientErrorsPauseBetweenAttempts(outcome: nat -> Attempt, n: nat, retries: int)
    requires n <= retries
    requires forall j: nat :: j < n ==> outcome(j).ClientErr?
    ensures SleepsIn(outcome, n, retries) == (if n == retries && n > 0 then n - 1 else n)
  {
    if n > 0 {
      ClientErrorsPauseBetweenAttempts(outcome, n - 1, retries);
    }
  }

  /** Rejected statuses retry at once: no attempt that met a status is followed by a pause. */
  lemma {:induction false} StatusesNeverPause(outcome: nat -> Attempt, n: nat, retries: int)
    requires forall j: nat :: j < n ==> outcome(j).Status?
    ensures SleepsIn(outcome, n, retries) == 0
  {
    if n > 0 {
      StatusesNeverPause(outcome, n - 1, retries);
    }
  }

  /** An address that never answers is not reached, whatever the retry count. */
  lemma NeverAnsweringIsUnreachable(outcome: nat -> Attempt, retries: int)
    requires forall j: nat :: outcome(j) == ClientErr
    ensures !Reaches(outcome, retries)
  {
  }
}
