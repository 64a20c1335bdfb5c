/**
 What one gateway process does with a classified event: the claim gate, the
 fan-out onto bounded per-channel queues, and the workers that drain them.

 A `Life` is one process life of an alerter. Besides the queues it keeps the
 history that the conservation results speak about: what was dispatched, and per
 channel what was accepted, dropped and sent. Time is in milliseconds.
 */
module AlertPipeline {
  import opened AlertSeverity
  import opened Options

  // ---- The claim gate ----

  const DEDUP_TTL: int := 300_000

  /** What a SET NX call reports. A failed call may still have been applied. */
  datatype Reply = Answered | Failed(applied: bool)

  /** The shared dedup keys: fingerprint to expiry. */
  type Claims = map<string, int>

  predicate Held(claims: Claims, fingerprint: string, now: int) {
    fingerprint in claims && now < claims[fingerprint]
  }

  function ClaimsAfter(claims: Claims, fingerprint: string, now: int, reply: Reply): Claims {
    if reply == Failed(false) || Held(claims, fingerprint, now) then claims
    else claims[fingerprint := now + DEDUP_TTL]
  }

  /** Fail-open for critical events, fail-closed for the rest. */
  predicate ShouldSend(claims: Claims, severity: Severity, fingerprint: string, now: int, reply: Reply) {
    if reply.Failed? then severity == Critical else !Held(claims, fingerprint, now)
  }

  // ---- Queues and workers ----

  const QUEUE_DEPTH := 64

  datatype Lane = Lane(queue: seq<Message>, inHand: Option<Message>,
                       accepted: seq<Message>, dropped: seq<Message>, sent: seq<Message>)

  datatype Life = Life(workers: map<string, Lane>, dispatched: seq<Message>, skipped: multiset<string>)

  const EMPTY_LANE := Lane([], None, [], [], [])

  function NewLife(channels: set<string>): Life {
    Life(map c | c in channels :: EMPTY_LANE, [], multiset{})
  }

  /** A non-blocking enqueue. */
  function Offer(lane: Lane, m: Message): Lane {
    if |lane.queue| < QUEUE_DEPTH then lane.(queue := lane.queue + [m], accepted := lane.accepted + [m])
    else lane.(dropped := lane.dropped + [m])
  }

  function OfferTo(life: Life, name: string, m: Message): Life {
    if name in life.workers then life.(workers := life.workers[name := Offer(life.workers[name], m)])
    else life.(skipped := life.skipped + multiset{name})
  }

  function FanOut(life: Life, targets: seq<string>, m: Message): Life {
    if targets == [] then life
    else OfferTo(FanOut(life, targets[..|targets| - 1], m), targets[|targets| - 1], m)
  }

  function Dispatch(life: Life, m: Message): Life {
    FanOut(life.(dispatched := life.dispatched + [m]), ChannelsFor(m.severity), m)
  }

  function Take(lane: Lane): Lane {
    if lane.inHand.None? && lane.queue != [] then lane.(queue := lane.queue[1..], inHand := Some(lane.queue[0]))
    else lane
  }

  function Finish(lane: Lane): Lane {
    if lane.inHand.Some? then lane.(inHand := None, sent := lane.sent + [lane.inHand.value]) else lane
  }

  /** Everything `handleEvent` decides and changes. */
  datatype Handled = Handled(life: Life, claims: Claims, dispatched: bool)

  function Handle(life: Life, claims: Claims, now: int, m: Message, reply: Reply, bypass: bool): Handled {
    var send := bypass || ShouldSend(claims, m.severity, m.fingerprint, now, reply);
    Handled(
      if send then Dispatch(life, m) else life,
      if bypass then claims else ClaimsAfter(claims, m.fingerprint, now, reply),
      send)
  }

  // ---- Conservation ----

  function InHand(lane: Lane): seq<Message> {
    if lane.inHand.Some? then [lane.inHand.value] else []
  }

  /** The dispatched messages whose tier wants the channel. */
  function Targeting(ms: seq<Message>, name: string): seq<Message> {
    if ms == [] then []
    else
      var before := Targeting(ms[..|ms| - 1], name);
      var m := ms[|ms| - 1];
      if name in ChannelsFor(m.severity) then before + [m] else before
  }

  ghost predicate LaneBalanced(lane: Lane, targeting: seq<Message>) {
    && |lane.queue| <= 64
    && lane.accepted == lane.sent + InHand(lane) + lane.queue
    && multiset(targeting) == multiset(lane.accepted) + multiset(lane.dropped)
  }

  ghost predicate Balanced(life: Life) {
    && (forall name :: name in life.workers ==>
          LaneBalanced(life.workers[name], Targeting(life.dispatched, name)) && life.skipped[name] == 0)
    && (forall name :: name !in life.workers ==> life.skipped[name] == |Targeting(life.dispatched, name)|)
  }

  lemma NewLifeBalanced(channels: set<string>)
    ensures Balanced(NewLife(channels))
  {
  }

  /** The fan-out touches each named channel once and no other. */
  lemma {:induction false} FanOutPerChannel(life: Life, targets: seq<string>, m: Message, name: string)
    requires forall i, j :: 0 <= i < j < |targets| ==> targets[i] != targets[j]
    ensures var after := FanOut(life, targets, m);
            && after.dispatched == life.dispatched
            && after.workers.Keys == life.workers.Keys
            && (name in life.workers ==>
                  after.workers[name] == (if name in targets then Offer(life.workers[name], m) else life.workers[name])
                  && after.skipped[name] == life.skipped[name])
            && (name !in life.workers ==>
                  after.skipped[name] == life.skipped[name] + (if name in targets then 1 else 0))
  {
    if targets != [] {
      var before := targets[..|targets| - 1];
      assert targets == before + [targets[|targets| - 1]];
      FanOutPerChannel(life, before, m, name);
    }
  }

  lemma DispatchBalanced(life: Life, m: Message)
    requires Balanced(life)
    ensures Balanced(Dispatch(life, m))
    ensures Dispatch(life, m).workers.Keys == life.workers.Keys
  {
    var noted := life.(dispatched := life.dispatched + [m]);
    var targets := ChannelsFor(m.severity);
    assert noted.dispatched[..|noted.dispatched| - 1] == life.dispatched;
    FanOutPerChannel(noted, targets, m, "");
    forall name
      ensures name in life.workers ==>
                LaneBalanced(Dispatch(life, m).workers[name], Targeting(noted.dispatched, name))
                && Dispatch(life, m).skipped[name] == 0
      ensures name !in life.workers ==> Dispatch(life, m).skipped[name] == |Targeting(noted.dispatched, name)|
    {
      FanOutPerChannel(noted, targets, m, name);
      if name in life.workers {
        OfferBalanced(life.workers[name], Targeting(life.dispatched, name), m);
      }
    }
  }

  lemma OfferBalanced(lane: Lane, targeting: seq<Message>, m: Message)
    requires LaneBalanced(lane, targeting)
    ensures LaneBalanced(Offer(lane, m), targeting + [m])
  {
    assert lane.sent + InHand(lane) + (lane.queue + [m]) == lane.accepted + [m];
  }

  lemma WorkerBalanced(lane: Lane, targeting: seq<Message>)
    requires LaneBalanced(lane, targeting)
    ensures LaneBalanced(Take(lane), targeting) && LaneBalanced(Finish(lane), targeting)
  {
    if lane.queue != [] {
      assert lane.queue == [lane.queue[0]] + lane.queue[1..];
    }
  }

  lemma WorkerStepBalanced(life: Life, c: string, lane: Lane)
    requires Balanced(life) && c in life.workers
    requires lane == Take(life.workers[c]) || lane == Finish(life.workers[c])
    ensures Balanced(life.(workers := life.workers[c := lane]))
  {
    WorkerBalanced(life.workers[c], Targeting(life.dispatched, c));
    ReplaceLaneBalanced(life, c, lane);
  }

  lemma ReplaceLaneBalanced(life: Life, c: string, lane: Lane)
    requires Balanced(life) && c in life.workers && LaneBalanced(lane, Targeting(life.dispatched, c))
    ensures Balanced(life.(workers := life.workers[c := lane]))
  {
  }

  lemma {:induction false} TargetingMeaning(ms: seq<Message>, name: string)
    ensures forall m :: m in Targeting(ms, name) <==> m in ms && name in ChannelsFor(m.severity)
  {
    if ms != [] {
      TargetingMeaning(ms[..|ms| - 1], name);
      assert ms == ms[..|ms| - 1] + [ms[|ms| - 1]];
    }
  }

  /**
   The books of one channel: every message aimed at it was skipped because the
   channel is not configured, dropped, or accepted; the accepted ones are, in
   order, the sent ones, the one in hand and the queued ones; and only critical
   messages are ever accepted for chatwoot, only critical or warning ones anywhere.
   */
  lemma BooksOfAChannel(life: Life, name: string)
    requires Balanced(life)
    ensures name !in life.workers ==> life.skipped[name] == |Targeting(life.dispatched, name)|
    ensures name in life.workers ==>
              var lane := life.workers[name];
              && |Targeting(life.dispatched, name)| == life.skipped[name] + |lane.dropped| + |lane.accepted|
              && |lane.accepted| == |lane.sent| + |InHand(lane)| + |lane.queue|
              && lane.sent <= lane.accepted
              && |lane.queue| <= 64
              && (forall m :: m in lane.accepted ==>
                    m in life.dispatched && m.severity != Info && (name == "chatwoot" ==> m.severity == Critical))
  {
    if name in life.workers {
      var lane := life.workers[name];
      var targeting := Targeting(life.dispatched, name);
      assert |multiset(targeting)| == |multiset(lane.accepted)| + |multiset(lane.dropped)|;
      TargetingMeaning(life.dispatched, name);
      forall m | m in lane.accepted
        ensures m in targeting
      {
        assert m in multiset(lane.accepted);
        assert m in multiset(targeting);
      }
    }
  }

  /** A message is lost on a configured channel exactly when its queue is full. */
  lemma DropsOnlyWhenFull(life: Life, m: Message, name: string)
    requires name in life.workers && name in ChannelsFor(m.severity)
    ensures name in Dispatch(life, m).workers
    ensures var before, after := life.workers[name], Dispatch(life, m).workers[name];
            if |before.queue| >= 64
            then after.queue == before.queue && after.dropped == before.dropped + [m]
            else after.queue == before.queue + [m] && after.dropped == before.dropped
  {
    FanOutPerChannel(life.(dispatched := life.dispatched + [m]), ChannelsFor(m.severity), m, name);
  }

  // ---- Who is reached, when, and in what order ----

  /** The gate by what it sees: a bypass, a free key, or a Redis failure on a page. */
  predicate GateOpen(claims: Claims, now: int, e: Event, reply: Reply, bypass: bool) {
    || bypass
    || (if reply.Answered? then Fingerprint(e) !in claims || claims[Fingerprint(e)] <= now else Pages(e))
  }

  /** A lane that was offered a message: taken while there are fewer than 64 waiting, else dropped. */
  predicate Offered(before: Lane, after: Lane, m: Message) {
    && after.inHand == before.inHand && after.sent == before.sent
    && (if |before.queue| < 64
        then after.queue == before.queue + [m] && after.accepted == before.accepted + [m] && after.dropped == before.dropped
        else after.queue == before.queue && after.accepted == before.accepted && after.dropped == before.dropped + [m])
  }

  /** An event is offered to exactly the configured channels it reaches, exactly when the gate is open. */
  lemma EventReachesItsChannels(life: Life, claims: Claims, now: int, e: Event, reply: Reply, bypass: bool, name: string)
    ensures var h := Handle(life, claims, now, Classify(e), reply, bypass);
            && h.dispatched == GateOpen(claims, now, e, reply, bypass)
            && h.life.workers.Keys == life.workers.Keys
            && (name in life.workers ==>
                  if GateOpen(claims, now, e, reply, bypass) && Reaches(e, name)
                  then Offered(life.workers[name], h.life.workers[name], Classify(e))
                  else h.life.workers[name] == life.workers[name])
  {
    WhoIsAlerted(e, name);
    var m := Classify(e);
    FanOutPerChannel(life.(dispatched := life.dispatched + [m]), ChannelsFor(m.severity), m, name);
  }

  /**
   After a free key was tried, the same event is dispatched again exactly when the first
   try claimed nothing or 300 s have passed; while it is suppressed the keys stay.
   */
  lemma RepeatsAreGated(life: Life, claims: Claims, e: Event, at: int, reply: Reply, again: Life, later: int)
    requires Fingerprint(e) !in claims || claims[Fingerprint(e)] <= at
    requires at <= later
    ensures var first := Handle(life, claims, at, Classify(e), reply, false);
            var second := Handle(again, first.claims, later, Classify(e), Answered, false);
            && (second.dispatched <==> reply == Failed(false) || later >= at + 300_000)
            && (!second.dispatched ==> second.claims == first.claims && second.life == again)
  {
  }

  /** What a worker has done after n jobs. */
  function Worked(lane: Lane, n: nat): Lane
    decreases n
  {
    if n == 0 then lane else Worked(Finish(Take(lane)), n - 1)
  }

  /** A free worker sends the queued messages one by one, oldest first, and leaves the rest waiting. */
  lemma {:induction false} DrainsInOrder(lane: Lane, n: nat)
    requires lane.inHand.None? && n <= |lane.queue|
    ensures Worked(lane, n) == lane.(queue := lane.queue[n..], sent := lane.sent + lane.queue[..n])
    decreases n
  {
    if n == 0 {
      assert lane.sent + lane.queue[..0] == lane.sent;
    } else {
      var next := Finish(Take(lane));
      assert next == lane.(queue := lane.queue[1..], sent := lane.sent + [lane.queue[0]]);
      DrainsInOrder(next, n - 1);
      assert lane.queue[1..][n - 1..] == lane.queue[n..];
      assert lane.sent + [lane.queue[0]] + lane.queue[1..][..n - 1] == lane.sent + lane.queue[..n];
    }
  }
}
