/**
 `ClickUpClient.Send`: retries around a breaker around a rate limiter, with the
 clock and everything the network and the scheduler decide as parameters.
 */
module ClickUpClient {
  import opened ClickUpMachines

  /** What the environment does during one attempt. */
  datatype Attempt = Attempt(
    timerSlack: nat,          // how late the limiter's timer fires
    cancelledWaiting: bool,   // the context ends during that wait
    networkTime: nat,
    outcome: Outcome,
    cancelledAfter: bool,     // the context has ended when the attempt failed
    nextBackOff: nat,         // the exponential schedule's next interval
    backoffSlack: nat,
    cancelledBackOff: bool)   // the context ends during the back-off

  // ---- Why a Send goes on or stops ----

  /** The limiter lets a caller go at once, or when its timer for the reset fires. */
  function Resumed(q: Quota, now: int, slack: nat): int {
    if Exhausted(q, now) then q.resetAt + slack else now
  }

  /** An attempt that makes no POST: the context ends in the limiter's wait, or the breaker refuses. */
  predicate Refused(cb: Breaker, q: Quota, now: int, a: Attempt) {
    (Exhausted(q, now) && a.cancelledWaiting) || !Admits(cb, Resumed(q, now, a.timerSlack))
  }

  /** The wait before the next attempt: what a 429 asks for, else the schedule's interval. */
  function Wait(v: Verdict, a: Attempt): int {
    if v.RetryAfter? then Pause(v) else a.nextBackOff
  }

  /** A failed attempt that is the last: permanent, the context ended, or 15 minutes would be over. */
  predicate GivesUp(v: Verdict, end: int, a: Attempt, started: int) {
    || v.Permanent?
    || a.cancelledAfter
    || Wrap64(end - started + Wait(v, a)) > 900_000_000_000
    || a.cancelledBackOff
  }

  /** When the attempt after `mine` begins. */
  function ReadyAt(mine: seq<Post>, env: nat -> Attempt, started: int): int {
    if mine == [] then started
    else
      var p, a := mine[|mine| - 1], env(|mine| - 1);
      p.end + (if Wait(p.verdict, a) > 0 then Wait(p.verdict, a) else 0) + a.backoffSlack
  }

  function BreakerAt(mine: seq<Post>, cb: Breaker): Breaker {
    if mine == [] then cb else mine[|mine| - 1].after
  }

  function QuotaAt(mine: seq<Post>, q: Quota): Quota {
    if mine == [] then q else QuotaAfter(mine[|mine| - 1])
  }

  /** What a Send starts from. */
  datatype Begin = Begin(started: int, cb: Breaker, quota: Quota)

  predicate RefusedNext(mine: seq<Post>, env: nat -> Attempt, b: Begin) {
    Refused(BreakerAt(mine, b.cb), QuotaAt(mine, b.quota), ReadyAt(mine, env, b.started), env(|mine|))
  }

  predicate GaveUp(mine: seq<Post>, env: nat -> Attempt, b: Begin) {
    && mine != []
    && GivesUp(mine[|mine| - 1].verdict, mine[|mine| - 1].end, env(|mine| - 1), b.started)
  }

  predicate Succeeded(mine: seq<Post>) {
    mine != [] && mine[|mine| - 1].verdict.Success?
  }

  /**
   The POSTs of one Send, one per attempt: each with its attempt's outcome, as soon as the
   limiter lets it go, admitted, and after a failure that was not the last.
   */
  ghost predicate Story(mine: seq<Post>, env: nat -> Attempt, b: Begin) {
    mine == []
    || (var before, p, a := mine[..|mine| - 1], mine[|mine| - 1], env(|mine| - 1);
        && Story(before, env, b)
        && !Succeeded(before) && !GaveUp(before, env, b) && !RefusedNext(before, env, b)
        && p.start == Resumed(QuotaAt(before, b.quota), ReadyAt(before, env, b.started), a.timerSlack)
        && p.end == p.start + a.networkTime
        && p.outcome == a.outcome)
  }

  /** A Send is over on success, after four tries, when it gives up, or when the next attempt is refused. */
  predicate Over(mine: seq<Post>, env: nat -> Attempt, b: Begin) {
    Succeeded(mine) || |mine| == 4 || GaveUp(mine, env, b) || RefusedNext(mine, env, b)
  }

  class AdaptiveRateLimiter {
    var remaining: int
    var resetAt: int
    var seen: bool

    constructor ()
      ensures Current() == Quota(0, 0, false)
    {
      remaining, resetAt, seen := 0, 0, false;
    }

    function Current(): Quota
      reads this
    {
      Quota(remaining, resetAt, seen)
    }

    /** Returns the time at which the caller goes on, and whether the context ended first. */
    method WaitIfExhausted(now: int, slack: nat, cancelled: bool) returns (resumed: int, err: bool)
      ensures now <= resumed
      ensures err <==> cancelled && Exhausted(Current(), now)
      ensures !err ==> resumed == Resumed(Current(), now, slack) && !Exhausted(Current(), resumed)
    {
      var exhausted := seen && remaining <= 0;
      if !exhausted || resetAt <= now {
        return now, false;
      }
      if cancelled {
        return now, true;
      }
      return resetAt + slack, false;
    }

    method Observe(remaining: Header, reset: Header)
      modifies this
      ensures Current() == Observed(old(Current()), remaining, reset)
    {
      if remaining.Missing? && reset.Missing? {
        return;
      }
      seen := true;
      if remaining.Number? {
        this.remaining := remaining.value;
      }
      if reset.Number? {
        resetAt := reset.value * SECOND;
      }
    }
  }

  class Client {
    const rl: AdaptiveRateLimiter
    const urlParses: bool
    var cb: Breaker
    var now: int
    ghost var posts: seq<Post>

    /**
     The whole past of the client was allowed, and the client is where it left off. With a
     base URL or list id that make no URL nothing is ever posted.
     */
    ghost predicate Valid()
      reads this, rl
    {
      && FromTheStart(posts)
      && AtRest(cb)
      && (urlParses || posts == [])
      && (posts == [] ==> (urlParses ==> cb == Closed(0)) && rl.Current() == Quota(0, 0, false))
      && (posts != [] ==>
            var p := posts[|posts| - 1];
            cb == p.after && rl.Current() == QuotaAfter(p) && p.end <= now)
    }

    constructor (now: int, urlParses: bool)
      ensures Valid() && posts == [] && this.now == now && fresh(rl) && this.urlParses == urlParses
    {
      this.urlParses := urlParses;
      rl := new AdaptiveRateLimiter();
      cb := Closed(0);
      this.now := now;
      posts := [];
    }

    /** Time passes between two Sends. */
    method Elapse(d: nat)
      requires Valid()
      modifies this`now
      ensures Valid() && now == old(now) + d
    {
      now := now + d;
    }

    /**
     One attempt: rate-limit wait, breaker, POST, classification. A request that cannot
     be built is a failure to the breaker and is retried.
     */
    method Try(a: Attempt) returns (v: Verdict, ghost made: seq<Post>)
      requires Valid()
      modifies this, rl
      ensures Valid() && now >= old(now)
      ensures posts == old(posts) + made && |made| <= 1
      ensures v.RetryAfter? ==> v.seconds >= 1
      ensures made != [] <==> urlParses && !Refused(old(cb), old(rl.Current()), old(now), a)
      ensures made == [] ==>
                && rl.Current() == old(rl.Current())
                && if Refused(old(cb), old(rl.Current()), old(now), a) then v == Permanent && cb == old(cb)
                   else v == Retryable && cb == Report(Admitted(old(cb), now), now, false)
      ensures made != [] ==>
                && made[0].start == Resumed(old(rl.Current()), old(now), a.timerSlack)
                && made[0].end == now == made[0].start + a.networkTime
                && made[0].outcome == a.outcome && made[0].verdict == v
                && cb == made[0].after && rl.Current() == QuotaAfter(made[0])
    {
      var start, err := rl.WaitIfExhausted(now, a.timerSlack, a.cancelledWaiting);
      now := start;
      if err || !Admits(cb, start) {
        return Permanent, [];
      }
      if !urlParses {
        ReportLeavesBreakerAtRest(cb, start, start, false);
        cb := Report(Admitted(cb, start), start, false);
        return Retryable, [];
      }
      v, made := PostTask(a);
    }

    /** The admitted POST itself. */
    method PostTask(a: Attempt) returns (v: Verdict, ghost made: seq<Post>)
      requires Valid() && urlParses && Admits(cb, now) && !Exhausted(rl.Current(), now)
      modifies this, rl
      ensures Valid() && now >= old(now)
      ensures posts == old(posts) + made && |made| == 1
      ensures v.RetryAfter? ==> v.seconds >= 1
      ensures made[0].outcome == a.outcome && made[0].verdict == v
      ensures made[0].start == old(now) && made[0].end == now == old(now) + a.networkTime
    {
      var start, breaker := now, cb;
      ghost var quota := rl.Current();
      now := start + a.networkTime;
      if a.outcome.Response? {
        rl.Observe(a.outcome.remaining, a.outcome.reset);
      }
      cb := Report(Admitted(breaker, start), now, CountsAsSuccess(a.outcome));
      v := Classify(a.outcome, now);
      ghost var p := Post(start, now, a.outcome, v, breaker, quota, cb);
      ReportLeavesBreakerAtRest(breaker, start, now, CountsAsSuccess(a.outcome));
      made := [p];
      HistorySnoc(posts, p);
      posts := posts + made;
    }

    /** The retry loop's pause, or its decision to give up. */
    method BackOff(v: Verdict, a: Attempt, started: int) returns (giveUp: bool)
      requires Valid() && !v.Success? && (v.RetryAfter? ==> v.seconds >= 1)
      modifies this`now
      ensures Valid() && now >= old(now)
      ensures giveUp <==> GivesUp(v, old(now), a, started)
      ensures !giveUp ==> now == old(now) + (if Wait(v, a) > 0 then Wait(v, a) else 0) + a.backoffSlack
    {
      if v.Permanent? || a.cancelledAfter {
        return true;
      }
      var next := if v.RetryAfter? then Wrap64(v.seconds * SECOND) else a.nextBackOff;
      if Wrap64(now - started + next) > MAX_ELAPSED || a.cancelledBackOff {
        return true;
      }
      now := now + (if next > 0 then next else 0) + a.backoffSlack;
      return false;
    }

    /** The client stands where `mine` left it, and the next attempt of the Send is due. */
    ghost predicate Due(mine: seq<Post>, env: nat -> Attempt, b: Begin)
      reads this, rl
    {
      && Story(mine, env, b) && !Succeeded(mine) && !GaveUp(mine, env, b)
      && now == ReadyAt(mine, env, b.started)
      && cb == BreakerAt(mine, b.cb) && rl.Current() == QuotaAt(mine, b.quota)
    }

    /** An attempt of a Send that has posted `mine` since the history was `start`. */
    method TryAgain(a: Attempt, env: nat -> Attempt, ghost b: Begin, ghost start: seq<Post>, ghost mine: seq<Post>)
      returns (v: Verdict, ghost longer: seq<Post>)
      requires Valid() && posts == start + mine
      requires urlParses ==> Due(mine, env, b) && a == env(|mine|)
      modifies this, rl
      ensures Valid() && posts == start + longer
      ensures v.RetryAfter? ==> v.seconds >= 1
      ensures !urlParses ==> longer == mine && !v.Success?
      ensures urlParses ==>
                if RefusedNext(mine, env, b) then longer == mine && v == Permanent
                else
                  && |longer| == |mine| + 1 && Story(longer, env, b)
                  && longer[|mine|].verdict == v && longer[|mine|].end == now
                  && cb == BreakerAt(longer, b.cb) && rl.Current() == QuotaAt(longer, b.quota)
    {
      ghost var made;
      v, made := Try(a);
      longer := mine + made;
      assert start + mine + made == start + longer;
      if made != [] {
        assert longer[..|longer| - 1] == mine && longer[|longer| - 1] == made[0];
      }
    }

    /** One round of the retry loop: an attempt and, unless it is the last, the pause after it. */
    method Round(env: nat -> Attempt, tries: nat, started: int, ghost b: Begin, ghost start: seq<Post>, ghost mine: seq<Post>)
      returns (stop: bool, ok: bool, ghost longer: seq<Post>)
      requires Valid() && posts == start + mine && b.started == started && tries < MAX_TRIES
      requires if urlParses then |mine| == tries && Due(mine, env, b) else mine == []
      modifies this, rl
      ensures Valid() && posts == start + longer
      ensures ok ==> stop
      ensures !urlParses ==> longer == [] && !ok
      ensures urlParses ==> Story(longer, env, b) && ok == Succeeded(longer) && |longer| <= tries + 1
      ensures urlParses && stop ==> Over(longer, env, b)
      ensures !stop ==> tries + 1 < MAX_TRIES && (urlParses ==> |longer| == tries + 1 && Due(longer, env, b))
    {
      var v;
      v, longer := TryAgain(env(tries), env, b, start, mine);
      if v.Success? {
        return true, true, longer;
      }
      if tries + 1 >= MAX_TRIES {
        return true, false, longer;
      }
      var giveUp := BackOff(v, env(tries), started);
      return giveUp, false, longer;
    }

    /** The library's retry loop around `Try`. */
    method Retry(env: nat -> Attempt) returns (ok: bool, ghost mine: seq<Post>)
      requires Valid()
      modifies this, rl
      ensures Valid() && posts == old(posts) + mine
      ensures |mine| <= MAX_TRIES
      ensures ok <==> Succeeded(mine)
      ensures !urlParses ==> mine == []
      ensures urlParses ==>
                var b := Begin(old(now), old(cb), old(rl.Current()));
                Story(mine, env, b) && Over(mine, env, b)
    {
      var started := now;
      ghost var b := Begin(now, cb, rl.Current());
      var tries := 0;
      mine := [];
      while true
        invariant Valid() && posts == old(posts) + mine
        invariant tries < MAX_TRIES
        invariant if urlParses then |mine| == tries && Due(mine, env, b) else mine == []
        decreases MAX_TRIES - tries
      {
        var stop;
        stop, ok, mine := Round(env, tries, started, b, old(posts), mine);
        if stop {
          return ok, mine;
        }
        tries := tries + 1;
      }
    }

    /**
     `mine` is what this Send posted. With a URL it posts until it succeeds, has tried four
     times, gives up or is refused, and never stops before; without one it posts nothing.
     */
    method Send(env: nat -> Attempt) returns (ok: bool, ghost mine: seq<Post>)
      requires Valid()
      modifies this, rl
      ensures Valid() && posts == old(posts) + mine
      ensures |mine| <= 4 && Retried(mine)
      ensures ok <==> mine != [] && Is2xx(mine[|mine| - 1].outcome)
      ensures !urlParses ==> mine == []
      ensures urlParses ==>
                var b := Begin(old(now), old(cb), old(rl.Current()));
                Story(mine, env, b) && Over(mine, env, b)
      ensures urlParses && !Refused(old(cb), old(rl.Current()), old(now), env(0)) ==>
                mine != [] && mine[0].outcome == env(0).outcome
    {
      ghost var b := Begin(now, cb, rl.Current());
      ok, mine := Retry(env);
      HistorySuffix(old(posts), mine);
      if mine != [] {
        assert mine[|mine| - 1] == posts[|posts| - 1];
        RetriedOutcomes(mine[|mine| - 1], now);
        StoryIsRetried(mine, env, b);
        StoryBegins(mine, env, b);
      }
    }
  }

  /** Each POST of an allowed history is allowed, wherever the history is cut. */
  lemma HistorySuffix(start: seq<Post>, mine: seq<Post>)
    requires History(start + mine)
    ensures forall i :: 0 <= i < |mine| ==> PostAllowed(mine[i])
  {
    HistoryMeaning(start + mine);
    assert forall i :: 0 <= i < |mine| ==> mine[i] == (start + mine)[|start| + i];
  }

  lemma {:induction false} StoryBegins(mine: seq<Post>, env: nat -> Attempt, b: Begin)
    requires Story(mine, env, b) && mine != []
    ensures mine[0].outcome == env(0).outcome
  {
    if |mine| > 1 {
      StoryBegins(mine[..|mine| - 1], env, b);
    }
  }

  lemma {:induction false} StoryIsRetried(mine: seq<Post>, env: nat -> Attempt, b: Begin)
    requires Story(mine, env, b) && forall i :: 0 <= i < |mine| ==> PostAllowed(mine[i])
    ensures Retried(mine)
  {
    if |mine| > 1 {
      var before := mine[..|mine| - 1];
      StoryIsRetried(before, env, b);
      assert before[|before| - 1] == mine[|mine| - 2];
    }
  }

  /** Every POST of one Send but the last failed in a way that allows the next one. */
  ghost predicate Retried(mine: seq<Post>) {
    |mine| <= 1
    || (Retried(mine[..|mine| - 1]) && MayRetry(mine[|mine| - 2], mine[|mine| - 1].start))
  }

  lemma {:induction false} RetriedMeaning(mine: seq<Post>)
    ensures Retried(mine) <==> forall i, j :: 0 <= i && j == i + 1 && j < |mine| ==> MayRetry(mine[i], mine[j].start)
  {
    if |mine| > 1 {
      var before := mine[..|mine| - 1];
      RetriedMeaning(before);
      assert forall i :: 0 <= i < |before| ==> before[i] == mine[i];
    }
  }

  /** A POST with this outcome may be followed by another one of the same Send at `start`. */
  predicate MayRetry(p: Post, start: int) {
    !p.verdict.Success? && !p.verdict.Permanent? && start >= p.end && start >= p.end + Pause(p.verdict)
  }

  /** The outcomes that end a Send: any success, a cancelled request, a client error other than 429. */
  lemma RetriedOutcomes(p: Post, start: int)
    requires PostAllowed(p)
    ensures p.verdict.Success? <==> Is2xx(p.outcome)
    ensures MayRetry(p, start) ==>
              !CountsAsSuccess(p.outcome) && !p.outcome.Cancelled?
              && (Is429(p.outcome) && p.verdict.seconds <= LONGEST ==> start >= p.end + SECOND)
  {
    if Is429(p.outcome) {
      RateLimitedPause(p);
    }
  }

  /**
   Four POSTs in one Send: the first three tripped the breaker, so some two of them
   lie a full open period apart. Three quick failures never lead to a fourth POST.
   */
  lemma FourthPostWaitsOutTheBreaker(posts: seq<Post>, from: nat)
    requires History(posts) && from + MAX_TRIES == |posts|
    requires Retried(posts[from..])
    ensures exists i :: from <= i <= from + 2 && posts[i + 1].start > posts[i].end + OPEN_PERIOD
  {
    var mine := posts[from..];
    RetriedMeaning(mine);
    HistoryMeaning(posts);
    forall i | from <= i <= from + 2
      ensures !CountsAsSuccess(posts[i].outcome)
    {
      assert PostAllowed(posts[i]) && MayRetry(mine[i - from], mine[i + 1 - from].start);
      RetriedOutcomes(mine[i - from], mine[i + 1 - from].start);
    }
    FourPostsSpanAnOpenPeriod(posts, from);
  }

  /** The breaker and quota a Send starts from are those its client's posts left. */
  predicate StartsAfter(posts: seq<Post>, b: Begin) {
    if posts == [] then b.cb == Closed(0) && b.quota == Quota(0, 0, false)
    else b.cb == posts[|posts| - 1].after && b.quota == QuotaAfter(posts[|posts| - 1])
  }

  /**
   Why a Send stops, read off the responses and the environment: a 2xx, four POSTs, a
   permanent outcome, the context, 15 minutes, or three failures in a row less than 60 s ago.
   */
  lemma WhySendStops(start: seq<Post>, mine: seq<Post>, env: nat -> Attempt, b: Begin)
    requires FromTheStart(start + mine) && StartsAfter(start, b) && Over(mine, env, b)
    ensures var posts, n := start + mine, |mine|;
            || (n > 0 && mine[n - 1].outcome.Response? && 200 <= mine[n - 1].outcome.status <= 299)
            || n == 4
            || (n > 0 && mine[n - 1].outcome.Cancelled?)
            || (n > 0 && mine[n - 1].outcome.Response? && 400 <= mine[n - 1].outcome.status <= 499
                && mine[n - 1].outcome.status != 429)
            || (n > 0 && (env(n - 1).cancelledAfter || env(n - 1).cancelledBackOff))
            || (n > 0 && Wrap64(mine[n - 1].end - b.started + Wait(mine[n - 1].verdict, env(n - 1))) > 900_000_000_000)
            || (posts != [] && env(n).cancelledWaiting && Reported(posts) && LastRemaining(posts) <= 0
                && ReadyAt(mine, env, b.started) < LastReset(posts))
            || (posts != [] && Trailing(posts) >= 3
                && Resumed(QuotaAt(mine, b.quota), ReadyAt(mine, env, b.started), env(n).timerSlack)
                   <= posts[|posts| - 1].end + 60_000_000_000)
  {
    var posts, n := start + mine, |mine|;
    HistorySuffix(start, mine);
    if n > 0 {
      assert posts[|posts| - 1] == mine[n - 1];
      VerdictExactly(mine[n - 1].outcome, mine[n - 1].end);
    } else {
      assert posts == start;
    }
    if posts != [] {
      var t := ReadyAt(mine, env, b.started);
      AdmittedExactly(posts, Resumed(QuotaAt(mine, b.quota), t, env(n).timerSlack));
      ExhaustedExactly(posts, t);
    }
  }

  const NO_HEADERS: int -> Outcome := status => Response(status, Missing, Missing, Missing)

  /** The environment of an attempt in which nothing is cancelled and a minute is not exceeded. */
  predicate Calm(a: Attempt) {
    && !a.cancelledWaiting && !a.cancelledAfter && !a.cancelledBackOff
    && a.networkTime + a.nextBackOff <= 60_000_000_000
  }

  /** A 503 on a fresh client is retried, and the 200 that follows ends the Send. */
  lemma OutageThenRecovery(mine: seq<Post>, env: nat -> Attempt, b: Begin)
    requires Story(mine, env, b) && Over(mine, env, b) && forall i :: 0 <= i < |mine| ==> PostAllowed(mine[i])
    requires StartsAfter([], b) && (mine != [] ==> mine[0].breaker == b.cb)
    requires env(0).outcome == NO_HEADERS(503) && env(1).outcome == NO_HEADERS(200) && Calm(env(0))
    ensures |mine| == 2 && Succeeded(mine)
  {
    StoryPrefix(mine, env, b, 1);
    StoryPrefix(mine, env, b, 2);
    StoryPrefix(mine, env, b, 3);
  }

  /** The first k POSTs of a Send are a Story too, and with more to come the Send was not over. */
  lemma {:induction false} StoryPrefix(mine: seq<Post>, env: nat -> Attempt, b: Begin, k: nat)
    requires Story(mine, env, b)
    ensures k <= |mine| ==> Story(mine[..k], env, b)
    ensures k < |mine| ==>
              && !Succeeded(mine[..k]) && !GaveUp(mine[..k], env, b) && !RefusedNext(mine[..k], env, b)
              && mine[k].outcome == env(k).outcome
  {
    if k < |mine| {
      var before := mine[..|mine| - 1];
      if k < |before| {
        StoryPrefix(before, env, b, k);
      }
      assert before[..k] == mine[..k];
    } else if k == |mine| {
      assert mine[..k] == mine;
    }
  }

  /**
   A POST that is followed by another one failed in a way worth a retry, with the context
   alive and less than 15 minutes gone, and the next one keeps the pause: what a 429 asked
   for, else the schedule's interval.
   */
  lemma {:induction false} EachRetryWasDue(mine: seq<Post>, env: nat -> Attempt, b: Begin, i: nat)
    requires Story(mine, env, b) && forall k :: 0 <= k < |mine| ==> PostAllowed(mine[k])
    requires i + 1 < |mine|
    ensures var o, a := mine[i].outcome, env(i);
            && !(o.Response? && 200 <= o.status <= 299) && !o.Cancelled?
            && !(o.Response? && 400 <= o.status <= 499 && o.status != 429)
            && !a.cancelledAfter && !a.cancelledBackOff
            && (o.Response? && o.status == 429 ==>
                  Wrap64(mine[i].end - b.started + Pause(mine[i].verdict)) <= 900_000_000_000
                  && mine[i + 1].start >= mine[i].end + Pause(mine[i].verdict))
            && (!(o.Response? && o.status == 429) ==>
                  Wrap64(mine[i].end - b.started + a.nextBackOff) <= 900_000_000_000
                  && mine[i + 1].start >= mine[i].end + a.nextBackOff)
            && mine[i + 1].start >= mine[i].end
  {
    VerdictExactly(mine[i].outcome, mine[i].end);
    var before := mine[..|mine| - 1];
    if i + 1 < |before| {
      EachRetryWasDue(before, env, b, i);
      assert before[i] == mine[i] && before[i + 1] == mine[i + 1];
    } else {
      assert before[|before| - 1] == mine[i];
    }
  }
}
