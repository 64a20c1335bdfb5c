/**
 The pieces of the ClickUp client that decide without waiting: the circuit breaker
 as the library documents it (one trial request, a 60 s open period), the error
 classification, and the history of POSTs the results speak about.
 Times are nanoseconds.
 */
module ClickUpMachines {

  const SECOND: int := 1_000_000_000
  const OPEN_PERIOD: int := 60 * SECOND
  const TRIP_AFTER := 3
  const MAX_TRIES := 4
  const MAX_ELAPSED: int := 900 * SECOND

  /** The most whole seconds a 64-bit duration holds. */
  const LONGEST: int := 9_223_372_036

  /** 64-bit wrap-around. */
  function Wrap64(i: int): int {
    (i + 0x8000_0000_0000_0000) % 0x1_0000_0000_0000_0000 - 0x8000_0000_0000_0000
  }

  // ---- Responses ----

  datatype Header = Missing | Unparsable | Number(value: int)

  datatype Outcome =
    | Response(status: int, remaining: Header, reset: Header, retryAfter: Header)
    | TransportError
    | Cancelled

  predicate Is2xx(o: Outcome) {
    o.Response? && 200 <= o.status < 300
  }

  predicate Is429(o: Outcome) {
    o.Response? && o.status == 429
  }

  predicate IsOther4xx(o: Outcome) {
    o.Response? && 400 <= o.status < 500 && o.status != 429
  }

  /** What the breaker's success filter sees: a 429 arrives as its own error type. */
  predicate CountsAsSuccess(o: Outcome) {
    Is2xx(o) || IsOther4xx(o)
  }

  // ---- Circuit breaker ----

  datatype Breaker = Closed(failures: nat) | Open(expiry: int) | HalfOpen(requests: nat)

  function Refresh(b: Breaker, now: int): Breaker {
    if b.Open? && b.expiry < now then HalfOpen(0) else b
  }

  predicate Admits(b: Breaker, now: int) {
    match Refresh(b, now)
    case Closed(_) => true
    case Open(_) => false
    case HalfOpen(requests) => requests < 1
  }

  function Admitted(b: Breaker, now: int): Breaker
    requires Admits(b, now)
  {
    match Refresh(b, now)
    case Closed(failures) => Closed(failures)
    case HalfOpen(requests) => HalfOpen(requests + 1)
  }

  function Report(b: Breaker, now: int, success: bool): Breaker {
    match b
    case Closed(failures) =>
      if success then Closed(0)
      else if failures + 1 >= TRIP_AFTER then Open(now + OPEN_PERIOD)
      else Closed(failures + 1)
    case HalfOpen(_) => if success then Closed(0) else Open(now + OPEN_PERIOD)
    case Open(expiry) => b
  }

  /** Between the POSTs of a single worker the breaker never rests half-open or over its limit. */
  predicate AtRest(b: Breaker) {
    match b
    case Closed(failures) => failures < TRIP_AFTER
    case Open(_) => true
    case HalfOpen(_) => false
  }

  // ---- Rate limiter ----

  datatype Quota = Quota(remaining: int, resetAt: int, seen: bool)

  /** The recorded quota is used up and its window has not reset. */
  predicate Exhausted(q: Quota, now: int) {
    q.seen && q.remaining <= 0 && now < q.resetAt
  }

  function Observed(q: Quota, remaining: Header, reset: Header): Quota {
    if remaining.Missing? && reset.Missing? then q
    else Quota(
      if remaining.Number? then remaining.value else q.remaining,
      if reset.Number? then reset.value * SECOND else q.resetAt,
      true)
  }

  /** Whole seconds until an instant; a duration saturates. */
  function SecondsUntil(reset: int, now: int): int {
    var d := (reset * SECOND - now) / SECOND;
    if d > LONGEST then LONGEST else d
  }

  /** Seconds to wait after a 429: the reset instant, else Retry-After, else 0. */
  function RetryAfterSeconds(reset: Header, retryAfter: Header, now: int): int {
    if reset.Number? && SecondsUntil(reset.value, now) > 0 then SecondsUntil(reset.value, now)
    else if retryAfter.Number? && retryAfter.value > 0 then retryAfter.value
    else 0
  }

  /** The retry loop's view of a failed attempt. */
  datatype Verdict = Success | Permanent | RetryAfter(seconds: int) | Retryable

  function Classify(o: Outcome, now: int): (v: Verdict)
    ensures v.RetryAfter? ==> v.seconds >= 1
  {
    if Is2xx(o) then Success
    else if o.Cancelled? || IsOther4xx(o) then Permanent
    else if Is429(o) then
      var secs := RetryAfterSeconds(o.reset, o.retryAfter, now);
      RetryAfter(if secs <= 0 then 1 else secs)
    else Retryable
  }

  /** The pause a verdict asks for: the retry library turns the seconds into a 64-bit duration. */
  function Pause(v: Verdict): int {
    if v.RetryAfter? then Wrap64(v.seconds * SECOND) else 0
  }

  // ---- History ----

  /** One POST: what came of it, the breaker and quota it started under, and the breaker it left. */
  datatype Post = Post(start: int, end: int, outcome: Outcome, verdict: Verdict, breaker: Breaker, quota: Quota, after: Breaker)

  predicate PostAllowed(p: Post) {
    && p.start <= p.end
    && p.verdict == Classify(p.outcome, p.end)
    && AtRest(p.breaker)
    && Admits(p.breaker, p.start)
    && !Exhausted(p.quota, p.start)
    && p.after == Report(Admitted(p.breaker, p.start), p.end, CountsAsSuccess(p.outcome))
  }

  function QuotaAfter(p: Post): Quota {
    if p.outcome.Response? then Observed(p.quota, p.outcome.remaining, p.outcome.reset) else p.quota
  }

  /** A POST finds the breaker and quota its predecessor left. */
  predicate Follows(p: Post, q: Post) {
    q.breaker == p.after && q.quota == QuotaAfter(p) && p.end <= q.start
  }

  /** Every POST was allowed, and follows its predecessor. */
  ghost predicate History(posts: seq<Post>) {
    posts == []
    || (var before, last := posts[..|posts| - 1], posts[|posts| - 1];
        && History(before)
        && PostAllowed(last)
        && (before != [] ==> Follows(before[|before| - 1], last)))
  }

  lemma {:induction false} HistoryMeaning(posts: seq<Post>)
    ensures History(posts) <==>
            && (forall i :: 0 <= i < |posts| ==> PostAllowed(posts[i]))
            && (forall i, j :: 0 <= i && j == i + 1 && j < |posts| ==> Follows(posts[i], posts[j]))
  {
    if posts != [] {
      var before := posts[..|posts| - 1];
      HistoryMeaning(before);
      assert forall i :: 0 <= i < |before| ==> before[i] == posts[i];
    }
  }

  lemma HistorySnoc(posts: seq<Post>, p: Post)
    requires History(posts) && PostAllowed(p)
    requires posts != [] ==> Follows(posts[|posts| - 1], p)
    ensures History(posts + [p])
  {
    assert (posts + [p])[..|posts|] == posts;
  }

  /** Whatever an admitted request reports, the breaker is at rest again. */
  lemma ReportLeavesBreakerAtRest(b: Breaker, start: int, end: int, success: bool)
    requires AtRest(b) && Admits(b, start)
    ensures AtRest(Report(Admitted(b, start), end, success))
  {
  }

  /** Three failures in a row leave the breaker open for its full period. */
  lemma ThreeFailuresOpen(posts: seq<Post>, k: nat)
    requires History(posts) && k + 2 < |posts|
    requires forall i :: k <= i <= k + 2 ==> !CountsAsSuccess(posts[i].outcome)
    ensures posts[k + 2].after.Open?
            || (posts[k].after.Open? && posts[k + 1].start > posts[k].end + OPEN_PERIOD)
            || (posts[k + 1].after.Open? && posts[k + 2].start > posts[k + 1].end + OPEN_PERIOD)
  {
    HistoryMeaning(posts);
    assert PostAllowed(posts[k]) && PostAllowed(posts[k + 1]) && PostAllowed(posts[k + 2]);
    assert Follows(posts[k], posts[k + 1]) && Follows(posts[k + 1], posts[k + 2]);
  }

  /** A failed POST after which the breaker is open holds back the next POST for the period. */
  lemma OpenHoldsBack(posts: seq<Post>, k: nat)
    requires History(posts) && k + 1 < |posts|
    requires posts[k].after.Open?
    ensures posts[k + 1].start > posts[k].end + OPEN_PERIOD
  {
    HistoryMeaning(posts);
    assert PostAllowed(posts[k]) && PostAllowed(posts[k + 1]);
    assert Follows(posts[k], posts[k + 1]);
  }

  /** Of any four POSTs in a row whose first three failed, some two are a full open period apart. */
  lemma FourPostsSpanAnOpenPeriod(posts: seq<Post>, k: nat)
    requires History(posts) && k + 3 < |posts|
    requires forall i :: k <= i <= k + 2 ==> !CountsAsSuccess(posts[i].outcome)
    ensures exists i :: k <= i <= k + 2 && posts[i + 1].start > posts[i].end + OPEN_PERIOD
  {
    ThreeFailuresOpen(posts, k);
    if posts[k + 2].after.Open? {
      OpenHoldsBack(posts, k + 2);
    }
  }

  /**
   The comment on the success filter says a 429 is no breaker failure; the code
   counts it as one. Of the client errors only the others clear the failure count.
   */
  lemma ClientErrorsAndTheBreaker(p: Post)
    requires PostAllowed(p)
    ensures IsOther4xx(p.outcome) ==> p.after == Closed(0)
    ensures Is429(p.outcome) ==> p.after != Closed(0) && (p.breaker == Closed(TRIP_AFTER - 1) ==> p.after.Open?)
  {
  }

  /** A response that reports the quota used up holds the next POST back to the reset it announces. */
  lemma AnnouncedResetIsHonoured(posts: seq<Post>, k: nat, left: int, reset: int)
    requires History(posts) && k + 1 < |posts|
    requires posts[k].outcome.Response?
    requires posts[k].outcome.remaining == Number(left) && posts[k].outcome.reset == Number(reset) && left <= 0
    ensures posts[k + 1].start >= reset * SECOND
  {
    HistoryMeaning(posts);
    assert Follows(posts[k], posts[k + 1]) && PostAllowed(posts[k + 1]);
  }

  lemma WrapsExactly(seconds: int)
    requires seconds >= 0
    ensures Wrap64(seconds * SECOND) == seconds * SECOND <==> seconds <= LONGEST
  {
  }

  /**
   The seconds asked for after a 429 are those until an announced reset at least a second
   ahead, else the Retry-After, else one. They are waited for exactly when a 64-bit
   duration holds them; then the pause lasts at least a second, and ends less than a
   second before a reset that a duration reaches.
   */
  lemma RateLimitedPause(p: Post)
    requires PostAllowed(p) && Is429(p.outcome)
    ensures p.verdict.RetryAfter? && p.verdict.seconds >= 1
    ensures Pause(p.verdict) == p.verdict.seconds * SECOND <==> p.verdict.seconds <= LONGEST
    ensures p.verdict.seconds <= LONGEST ==> Pause(p.verdict) >= SECOND
    ensures var ahead := if p.outcome.reset.Number? then p.outcome.reset.value * SECOND - p.end else 0;
            if ahead >= SECOND then
              && p.verdict.seconds <= LONGEST
              && Pause(p.verdict) <= ahead
              && (ahead < (LONGEST + 1) * SECOND ==> ahead - SECOND < Pause(p.verdict))
            else
              p.verdict.seconds == if p.outcome.retryAfter.Number? && p.outcome.retryAfter.value > 0
                                   then p.outcome.retryAfter.value else 1
  {
    WrapsExactly(p.verdict.seconds);
    if p.outcome.reset.Number? {
      WholeSeconds(p.outcome.reset.value * SECOND - p.end);
    }
  }

  lemma WholeSeconds(d: int)
    ensures d / SECOND * SECOND <= d < d / SECOND * SECOND + SECOND
    ensures d / SECOND > 0 <==> d >= SECOND
    ensures d / SECOND > LONGEST <==> d >= (LONGEST + 1) * SECOND
  {
  }

  /** Beyond the range the pause can be anything: this Retry-After of 585 years is over in less than a second. */
  lemma HugeRetryAfterIsShort(p: Post)
    requires PostAllowed(p) && Is429(p.outcome)
    requires p.outcome.reset.Missing? && p.outcome.retryAfter == Number(18_446_744_074)
    ensures Pause(p.verdict) == 290_448_384
  {
    assert Wrap64(18_446_744_074 * SECOND) == 290_448_384;
  }

  // ---- Breaker, quota and verdict read off the responses ----

  /** A 2xx clears the breaker's count, and so does a 4xx other than 429; anything else adds to it. */
  predicate Fails(o: Outcome) {
    !(o.Response? && (200 <= o.status <= 299 || (400 <= o.status <= 499 && o.status != 429)))
  }

  /** The failures in a row at the end. */
  function Trailing(posts: seq<Post>): nat {
    if posts == [] || !Fails(posts[|posts| - 1].outcome) then 0 else 1 + Trailing(posts[..|posts| - 1])
  }

  /** The remaining quota last reported, 0 if none was. */
  function LastRemaining(posts: seq<Post>): int {
    if posts == [] then 0
    else
      var o := posts[|posts| - 1].outcome;
      if o.Response? && o.remaining.Number? then o.remaining.value else LastRemaining(posts[..|posts| - 1])
  }

  /** The reset instant last reported, 0 if none was. */
  function LastReset(posts: seq<Post>): int {
    if posts == [] then 0
    else
      var o := posts[|posts| - 1].outcome;
      if o.Response? && o.reset.Number? then o.reset.value * 1_000_000_000 else LastReset(posts[..|posts| - 1])
  }

  /** Some response carried one of the two headers, readable or not. */
  function Reported(posts: seq<Post>): bool {
    && posts != []
    && (Reported(posts[..|posts| - 1])
        || (posts[|posts| - 1].outcome.Response?
            && !(posts[|posts| - 1].outcome.remaining.Missing? && posts[|posts| - 1].outcome.reset.Missing?)))
  }

  /** The history of a client that began with a closed breaker and no quota recorded. */
  ghost predicate FromTheStart(posts: seq<Post>) {
    History(posts) && (posts != [] ==> posts[0].breaker == Closed(0) && posts[0].quota == Quota(0, 0, false))
  }

  lemma FailsIsNoSuccess(o: Outcome)
    ensures Fails(o) <==> !CountsAsSuccess(o)
  {
  }

  /** Fewer than three failures in a row keep the breaker closed; from three on it is open for 60 s after the last. */
  lemma {:induction false} BreakerReadsOutcomes(posts: seq<Post>)
    requires FromTheStart(posts) && posts != []
    ensures posts[|posts| - 1].after ==
            if Trailing(posts) < 3 then Closed(Trailing(posts)) else Open(posts[|posts| - 1].end + 60_000_000_000)
  {
    var before, last := posts[..|posts| - 1], posts[|posts| - 1];
    FailsIsNoSuccess(last.outcome);
    if before != [] {
      BreakerReadsOutcomes(before);
    }
  }

  /** A POST at `t` is admitted exactly when fewer than three failures came last, or 60 s have passed since. */
  lemma AdmittedExactly(posts: seq<Post>, t: int)
    requires FromTheStart(posts) && posts != []
    ensures Admits(posts[|posts| - 1].after, t) <==> Trailing(posts) < 3 || t > posts[|posts| - 1].end + 60_000_000_000
  {
    BreakerReadsOutcomes(posts);
  }

  lemma {:induction false} QuotaReadsHeaders(posts: seq<Post>)
    requires FromTheStart(posts) && posts != []
    ensures QuotaAfter(posts[|posts| - 1]) == Quota(LastRemaining(posts), LastReset(posts), Reported(posts))
  {
    if |posts| > 1 {
      QuotaReadsHeaders(posts[..|posts| - 1]);
    }
  }

  /** The limiter waits exactly while the quota last reported is used up and the reset last reported is ahead. */
  lemma ExhaustedExactly(posts: seq<Post>, t: int)
    requires FromTheStart(posts) && posts != []
    ensures Exhausted(QuotaAfter(posts[|posts| - 1]), t) <==>
            Reported(posts) && LastRemaining(posts) <= 0 && t < LastReset(posts)
  {
    QuotaReadsHeaders(posts);
  }

  /** What the retry loop makes of each outcome. */
  lemma VerdictExactly(o: Outcome, now: int)
    ensures Classify(o, now).Success? <==> o.Response? && 200 <= o.status <= 299
    ensures Classify(o, now).Permanent? <==> o.Cancelled? || (o.Response? && 400 <= o.status <= 499 && o.status != 429)
    ensures Classify(o, now).RetryAfter? <==> o.Response? && o.status == 429
  {
  }
}
