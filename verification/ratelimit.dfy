/**
 * The rate-limit governor and the per-response decision of the two fetch
 * loops (`fetch_commits`, `fetch_commit_details`). Clock readings and header
 * values are integers supplied with each response; the sleep is returned as a
 * number of seconds instead of being performed.
 */
module RateLimit {
  import opened Wrappers

  const Forbidden: int := 403

  /**
   * What one GET returned: the status, the parsed `X-RateLimit-Remaining`
   * header when present, the parsed `X-RateLimit-Reset` header, and the JSON
   * body (None when the payload does not parse).
   */
  datatype Response<B> = Response(status: int, remaining: Option<int>, reset: int, body: Option<B>)

  /** One attempt of a fetch loop: the session raised, or a response came back at clock `now`. */
  datatype Attempt<B> = TransportError | Received(now: int, response: Response<B>)

  /** `handle_rate_limit`: carry on, or retry the request after sleeping `sleep` seconds. */
  datatype RateLimitDecision = Proceed | Retry(sleep: nat)

  /** `raise_for_status` raises for client and server error statuses. */
  predicate IsHttpError(status: int) {
    400 <= status < 600
  }

  /**
   * `handle_rate_limit`: signals a retry exactly for a 403 whose remaining quota
   * is present and zero; it sleeps until the reset time when that lies ahead,
   * and not at all when it has passed.
   */
  function HandleRateLimit(status: int, remaining: Option<int>, reset: int, now: int): (d: RateLimitDecision)
    ensures d.Retry? <==> status == Forbidden && remaining == Some(0)
    ensures d.Retry? ==> now + d.sleep >= reset
    ensures d.Retry? && d.sleep > 0 ==> now + d.sleep == reset
    ensures d.Retry? && reset > now ==> d.sleep > 0
  {
    if status == Forbidden && remaining.Some? && remaining.value == 0 then
      var wait := reset - now;
      Retry(if wait > 0 then wait else 0)
    else
      Proceed
  }

  /** What a fetch loop does with one attempt. */
  datatype Step<B> = RetrySame(sleep: nat) | Return(body: B) | GiveUp

  /**
   * One pass of the body of `while True` in `fetch_commits`/`fetch_commit_details`.
   * Every 403 is retried: a quota 403 after the governor has slept until the
   * reset time (not at all when that has passed), any other 403 at once
   * through the HTTPError handler; every other failure gives up (the fetch
   * returns None); a non-error status with a parsable body returns that body.
   */
  function Classify<B>(a: Attempt<B>): (s: Step<B>)
    ensures s.RetrySame? <==> a.Received? && a.response.status == Forbidden
    ensures s.Return? <==> a.Received? && !IsHttpError(a.response.status) && a.response.body.Some?
    ensures s.Return? ==> s.body == a.response.body.value
    ensures s.RetrySame? ==>
              s.sleep == if a.response.remaining == Some(0) && a.response.reset > a.now
                         then a.response.reset - a.now else 0
  {
    match a
    case TransportError => GiveUp
    case Received(now, resp) =>
      match HandleRateLimit(resp.status, resp.remaining, resp.reset, now)
      case Retry(sleep) => RetrySame(sleep)
      case Proceed =>
        if IsHttpError(resp.status) then
          if resp.status == Forbidden then RetrySame(0) else GiveUp
        else if resp.body.Some? then Return(resp.body.value)
        else GiveUp
  }

  /** Seconds slept over a run of attempts. */
  function Slept<B>(attempts: seq<Attempt<B>>): nat {
    if attempts == [] then 0
    else
      var here := match Classify(attempts[0]) case RetrySame(s) => s case _ => 0;
      here + Slept(attempts[1..])
  }

  lemma {:induction false} SleptAppend<B>(attempts: seq<Attempt<B>>, a: Attempt<B>)
    ensures Slept(attempts + [a]) == Slept(attempts) + Slept([a])
  {
    if attempts != [] {
      assert (attempts + [a])[1..] == attempts[1..] + [a];
      SleptAppend(attempts[1..], a);
    } else {
      assert attempts + [a] == [a];
    }
  }

  /** The end of a fetch loop over a finite script of attempts. */
  datatype Fetched<B> = Got(body: B) | NoData | StillRetrying

  /**
   * The retry loop of `fetch_commits`/`fetch_commit_details`, run over the
   * attempts the server would answer in turn. It returns at the first attempt
   * not classified as a retry, with that attempt's body or None; when the
   * script runs out while still retrying, the source would go on looping.
   */
  method FetchWithRetry<B>(attempts: seq<Attempt<B>>) returns (r: Fetched<B>, used: nat, slept: nat)
    ensures used <= |attempts|
    ensures r.StillRetrying? ==> used == |attempts|
    ensures !r.StillRetrying? ==> used >= 1
    ensures forall k :: 0 <= k < used && (r.StillRetrying? || k < used - 1) ==>
              Classify(attempts[k]).RetrySame?
    ensures r.Got? ==> Classify(attempts[used - 1]) == Return(r.body)
    ensures r.NoData? ==> Classify(attempts[used - 1]).GiveUp?
    ensures slept == Slept(attempts[..used])
  {
    used, slept := 0, 0;
    while used < |attempts|
      invariant used <= |attempts|
      invariant forall k :: 0 <= k < used ==> Classify(attempts[k]).RetrySame?
      invariant slept == Slept(attempts[..used])
    {
      var step := Classify(attempts[used]);
      SleptAppend(attempts[..used], attempts[used]);
      assert attempts[..used + 1] == attempts[..used] + [attempts[used]];
      used := used + 1;
      match step
      case RetrySame(sleep) =>
        slept := slept + sleep;
      case Return(body) =>
        return Got(body), used, slept;
      case GiveUp =>
        return NoData, used, slept;
    }
    r := StillRetrying;
  }
}
