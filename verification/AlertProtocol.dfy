/**
 Any number of gateway replicas sharing one set of dedup keys.

 A run is any list of steps: deliver an event to a replica, reconcile after a
 boot, a worker taking or finishing a job, a crash, a start, time passing. A step
 that is not possible changes nothing, so every list of steps is a run. Each Redis
 call may fail, and a failed one may still have claimed the key. The log records
 every gate decision.
 */
module AlertProtocol {
  import opened AlertSeverity
  import opened AlertPipeline
  import opened Alerter
  import opened Options

  datatype Entry = Entry(at: int, message: Message, dispatched: bool, gated: bool)

  datatype World = World(now: int, claims: Claims, lives: map<nat, Life>, log: seq<Entry>)

  datatype Step =
    | StartUp(replica: nat, channels: set<string>)
    | Crash(replica: nat)
    | Deliver(replica: nat, payload: Option<Event>, reply: Reply)
    | Reconcile(replica: nat, mirror: Mirror, reply: Reply)
    | TakeJob(replica: nat, channel: string)
    | FinishJob(replica: nat, channel: string)
    | Tick(elapsed: nat)

  const INITIAL := World(0, map[], map[], [])

  function HandleAt(w: World, r: nat, e: Event, reply: Reply, bypass: bool): World
    requires r in w.lives
  {
    var h := Handle(w.lives[r], w.claims, w.now, Classify(e), reply, bypass);
    w.(claims := h.claims, lives := w.lives[r := h.life],
       log := w.log + [Entry(w.now, Classify(e), h.dispatched, !bypass)])
  }

  function Next(w: World, step: Step): World {
    match step
    case StartUp(r, channels) => if r in w.lives then w else w.(lives := w.lives[r := NewLife(channels)])
    case Crash(r) => w.(lives := w.lives - {r})
    case Deliver(r, payload, reply) =>
      if r in w.lives && payload.Some? then HandleAt(w, r, payload.value, reply, false) else w
    case Reconcile(r, mirror, reply) =>
      var e := BootEvent(mirror);
      if r in w.lives && e.Some? then HandleAt(w, r, e.value, reply, BootBypasses(mirror)) else w
    case TakeJob(r, c) =>
      if r in w.lives && c in w.lives[r].workers then WithLane(w, r, c, Take(w.lives[r].workers[c])) else w
    case FinishJob(r, c) =>
      if r in w.lives && c in w.lives[r].workers then WithLane(w, r, c, Finish(w.lives[r].workers[c])) else w
    case Tick(elapsed) => w.(now := w.now + elapsed)
  }

  function WithLane(w: World, r: nat, c: string, lane: Lane): World
    requires r in w.lives
  {
    w.(lives := w.lives[r := w.lives[r].(workers := w.lives[r].workers[c := lane])])
  }

  function Run(steps: seq<Step>): World {
    if steps == [] then INITIAL else Next(Run(steps[..|steps| - 1]), steps[|steps| - 1])
  }

  lemma RunSnoc(steps: seq<Step>, step: Step)
    ensures Run(steps + [step]) == Next(Run(steps), step)
  {
    assert (steps + [step])[..|steps|] == steps;
  }

  // ---- Conservation in every run ----

  ghost predicate AllBalanced(w: World) {
    forall r :: r in w.lives ==> Balanced(w.lives[r])
  }

  lemma HandleAtBalanced(w: World, r: nat, e: Event, reply: Reply, bypass: bool)
    requires AllBalanced(w) && r in w.lives
    ensures AllBalanced(HandleAt(w, r, e, reply, bypass))
  {
    DispatchBalanced(w.lives[r], Classify(e));
  }

  lemma WithLaneBalanced(w: World, r: nat, c: string, lane: Lane)
    requires AllBalanced(w) && r in w.lives && c in w.lives[r].workers
    requires lane == Take(w.lives[r].workers[c]) || lane == Finish(w.lives[r].workers[c])
    ensures AllBalanced(WithLane(w, r, c, lane))
  {
    WorkerStepBalanced(w.lives[r], c, lane);
  }

  lemma NextBalanced(w: World, step: Step)
    requires AllBalanced(w)
    ensures AllBalanced(Next(w, step))
  {
    match step
    case StartUp(r, channels) =>
      NewLifeBalanced(channels);
    case Deliver(r, payload, reply) =>
      if r in w.lives && payload.Some? {
        HandleAtBalanced(w, r, payload.value, reply, false);
      }
    case Reconcile(r, mirror, reply) =>
      if r in w.lives && BootEvent(mirror).Some? {
        HandleAtBalanced(w, r, BootEvent(mirror).value, reply, BootBypasses(mirror));
      }
    case TakeJob(r, c) =>
      if r in w.lives && c in w.lives[r].workers {
        WithLaneBalanced(w, r, c, Take(w.lives[r].workers[c]));
      }
    case FinishJob(r, c) =>
      if r in w.lives && c in w.lives[r].workers {
        WithLaneBalanced(w, r, c, Finish(w.lives[r].workers[c]));
      }
    case _ =>
  }

  /** With `BooksOfAChannel`: the books of every channel of every replica balance in every run. */
  lemma {:induction false} EveryRunBalanced(steps: seq<Step>)
    ensures AllBalanced(Run(steps))
  {
    if steps != [] {
      EveryRunBalanced(steps[..|steps| - 1]);
      NextBalanced(Run(steps[..|steps| - 1]), steps[|steps| - 1]);
    }
  }

  // ---- A suppressed page was sent less than a window ago ----

  /** Events that can reach the gate: those the streams may carry, and those boots synthesise. */
  ghost predicate InPlay(carried: Event -> bool, e: Event) {
    carried(e) || (e.Emerg? && e.kind == "transition" && (EmergCritical(e.state) || EmergWarning(e.state)))
  }

  ghost predicate Carries(carried: Event -> bool, steps: seq<Step>) {
    forall step :: step in steps && step.Deliver? && step.payload.Some? ==> carried(step.payload.value)
  }

  /** No lower-tier event in play has the fingerprint of a critical event in play. */
  ghost predicate NoMasking(carried: Event -> bool) {
    forall c: Event, e: Event ::
      InPlay(carried, c) && InPlay(carried, e) && SeverityOf(c) == Critical && Fingerprint(c) == Fingerprint(e)
      ==> SeverityOf(e) == Critical
  }

  ghost predicate PagedRecently(log: seq<Entry>, i: nat)
    requires i < |log|
  {
    exists j :: 0 <= j < i && log[j].dispatched && log[j].message.severity == Critical
             && log[j].message.fingerprint == log[i].message.fingerprint
             && log[i].at - 300_000 < log[j].at <= log[i].at
  }

  ghost predicate PagesSafe(log: seq<Entry>) {
    forall i :: 0 <= i < |log| && log[i].message.severity == Critical && !log[i].dispatched ==> PagedRecently(log, i)
  }

  /** The entry that claimed a key: gated, a full window before the expiry, and sent if critical. */
  ghost predicate ClaimedBy(w: World, fingerprint: string, j: nat)
    requires fingerprint in w.claims
  {
    && j < |w.log|
    && w.log[j].gated && w.log[j].message.fingerprint == fingerprint
    && w.log[j].at + 300_000 == w.claims[fingerprint]
    && (w.log[j].message.severity == Critical ==> w.log[j].dispatched)
  }

  ghost predicate GateInvariant(carried: Event -> bool, w: World) {
    && (forall i :: 0 <= i < |w.log| ==>
          w.log[i].at <= w.now && InPlay(carried, w.log[i].message.about)
          && w.log[i].message == Classify(w.log[i].message.about))
    && (forall f :: f in w.claims ==> exists j: nat :: ClaimedBy(w, f, j))
  }

  lemma {:induction false} GateInvariantHolds(carried: Event -> bool, steps: seq<Step>)
    requires Carries(carried, steps)
    ensures GateInvariant(carried, Run(steps))
  {
    if steps != [] {
      var before, step := steps[..|steps| - 1], steps[|steps| - 1];
      assert step in steps;
      GateInvariantHolds(carried, before);
      var w := Run(before);
      match step
      case Deliver(r, payload, reply) =>
        if r in w.lives && payload.Some? {
          GateKeepsInvariant(carried, w, r, payload.value, reply, false);
        }
      case Reconcile(r, mirror, reply) =>
        if r in w.lives && BootEvent(mirror).Some? {
          GateKeepsInvariant(carried, w, r, BootEvent(mirror).value, reply, BootBypasses(mirror));
        }
      case _ =>
        ClaimsOutlive(w, Next(w, step));
    }
  }

  lemma ClaimsOutlive(w: World, w': World)
    requires w.claims == w'.claims && w.log <= w'.log
    requires forall f :: f in w.claims ==> exists j: nat :: ClaimedBy(w, f, j)
    ensures forall f :: f in w'.claims ==> exists j: nat :: ClaimedBy(w', f, j)
  {
    forall f | f in w'.claims
      ensures exists j: nat :: ClaimedBy(w', f, j)
    {
      var j: nat :| ClaimedBy(w, f, j);
      assert ClaimedBy(w', f, j);
    }
  }

  lemma GateKeepsInvariant(carried: Event -> bool, w: World, r: nat, e: Event, reply: Reply, bypass: bool)
    requires GateInvariant(carried, w) && r in w.lives && InPlay(carried, e)
    ensures GateInvariant(carried, HandleAt(w, r, e, reply, bypass))
  {
    var w' := HandleAt(w, r, e, reply, bypass);
    var f0 := Fingerprint(e);
    forall f | f in w'.claims
      ensures exists j: nat :: ClaimedBy(w', f, j)
    {
      if f in w.claims && w'.claims[f] == w.claims[f] {
        var j: nat :| ClaimedBy(w, f, j);
        assert ClaimedBy(w', f, j);
      } else {
        assert f == f0 && !bypass;
        assert ClaimedBy(w', f, |w.log|);
      }
    }
  }

  lemma {:induction false} NoMaskingKeepsPagesSafe(carried: Event -> bool, steps: seq<Step>)
    requires NoMasking(carried) && Carries(carried, steps)
    ensures PagesSafe(Run(steps).log)
  {
    if steps != [] {
      var before, step := steps[..|steps| - 1], steps[|steps| - 1];
      assert step in steps;
      NoMaskingKeepsPagesSafe(carried, before);
      GateInvariantHolds(carried, before);
      var w, w' := Run(before), Run(steps);
      if w'.log != w.log {
        OneMoreEntry(carried, w, step);
        SafeAfterOneMore(carried, w, w');
      }
    }
  }

  /** A step that changes the log adds one gate decision to it; a suppressed page met a held key. */
  lemma OneMoreEntry(carried: Event -> bool, w: World, step: Step)
    requires step.Deliver? && step.payload.Some? ==> carried(step.payload.value)
    requires Next(w, step).log != w.log
    ensures var w' := Next(w, step);
            && |w'.log| == |w.log| + 1 && w'.log[..|w.log|] == w.log
            && var e := w'.log[|w.log|];
               && InPlay(carried, e.message.about) && e.message == Classify(e.message.about) && e.at == w.now
               && (!e.dispatched && e.message.severity == Critical ==> Held(w.claims, e.message.fingerprint, w.now))
  {
  }

  lemma SafeAfterOneMore(carried: Event -> bool, w: World, w': World)
    requires NoMasking(carried) && GateInvariant(carried, w) && PagesSafe(w.log)
    requires |w'.log| == |w.log| + 1 && w'.log[..|w.log|] == w.log
    requires var e := w'.log[|w.log|];
             && InPlay(carried, e.message.about) && e.message == Classify(e.message.about) && e.at == w.now
             && (!e.dispatched && e.message.severity == Critical ==> Held(w.claims, e.message.fingerprint, w.now))
    ensures PagesSafe(w'.log)
  {
    forall i | 0 <= i < |w'.log| && w'.log[i].message.severity == Critical && !w'.log[i].dispatched
      ensures PagedRecently(w'.log, i)
    {
      if i < |w.log| {
        assert PagedRecently(w.log, i);
      } else {
        var f := w'.log[i].message.fingerprint;
        var j: nat :| ClaimedBy(w, f, j);
        assert Fingerprint(w.log[j].message.about) == Fingerprint(w'.log[i].message.about);
        assert w'.log[j] == w.log[j];
      }
    }
  }

  /**
   Pages are safe in every run, with any replicas, crashes and Redis failures,
   exactly when no lower-tier event in play masks a critical one.
   */
  lemma PagesSafeExactly(carried: Event -> bool)
    ensures NoMasking(carried) <==> (forall steps :: Carries(carried, steps) ==> PagesSafe(Run(steps).log))
  {
    if NoMasking(carried) {
      forall steps | Carries(carried, steps)
        ensures PagesSafe(Run(steps).log)
      {
        NoMaskingKeepsPagesSafe(carried, steps);
      }
    } else {
      var c: Event, e: Event :|
        && InPlay(carried, c) && InPlay(carried, e) && SeverityOf(c) == Critical
        && Fingerprint(c) == Fingerprint(e) && SeverityOf(e) != Critical;
      var steps := SilencedPage(carried, c, e);
      assert !PagesSafe(Run(steps).log);
    }
  }

  // ---- The condition read off single events ----

  /** A carried lower-tier event shadows some carried critical one. */
  ghost predicate CarriesShadowed(carried: Event -> bool) {
    exists e: Event, c: Event ::
      carried(e) && carried(c) && Shadows(e) && SeverityOf(c) == Critical && Fingerprint(c) == Fingerprint(e)
  }

  /** Masking takes a carried shadow and a carried critical event with its fingerprint; boots add neither. */
  lemma MaskingIsCarriedShadowing(carried: Event -> bool)
    ensures NoMasking(carried) <==> !CarriesShadowed(carried)
  {
    forall c: Event, e: Event |
      InPlay(carried, c) && InPlay(carried, e) && SeverityOf(c) == Critical && Fingerprint(c) == Fingerprint(e)
      ensures SeverityOf(e) != Critical ==> carried(e) && carried(c) && Shadows(e)
    {
      if SeverityOf(e) != Critical {
        OnlyShadowsShareCritical(c, e);
        MaskedIsCarried(c, e);
        AlertingStateDoesNotShadow(e);
      }
    }
    if CarriesShadowed(carried) {
      var e: Event, c: Event :|
        carried(e) && carried(c) && Shadows(e) && SeverityOf(c) == Critical && Fingerprint(c) == Fingerprint(e);
      ShadowsExactly(e);
      assert InPlay(carried, c) && InPlay(carried, e);
    }
  }

  lemma AlertingStateDoesNotShadow(e: Event)
    ensures e.Emerg? && (EmergCritical(e.state) || EmergWarning(e.state)) ==> !Shadows(e)
  {
    if e.Emerg? && (EmergCritical(e.state) || EmergWarning(e.state)) {
      AlertingStatesAreColonFree(e.state);
      WellFormedDoesNotShadow(e);
    }
  }

  /**
   Pages are safe in every run exactly when the streams carry no lower-tier event
   together with a critical event it shadows.
   */
  lemma PagesSafeUnlessShadowed(carried: Event -> bool)
    ensures (forall steps :: Carries(carried, steps) ==> PagesSafe(Run(steps).log)) <==> !CarriesShadowed(carried)
  {
    PagesSafeExactly(carried);
    MaskingIsCarriedShadowing(carried);
  }

  /**
   With colon-free states, and primary types colon-free and not `death`, every run with
   any replicas, crashes and Redis failures keeps pages safe.
   */
  lemma WellFormedEventsKeepPagesSafe(carried: Event -> bool, steps: seq<Step>)
    requires forall e: Event :: carried(e) ==> WellFormed(e)
    requires Carries(carried, steps)
    ensures PagesSafe(Run(steps).log)
  {
    forall e: Event | carried(e)
      ensures !Shadows(e)
    {
      WellFormedDoesNotShadow(e);
    }
    PagesSafeUnlessShadowed(carried);
  }

  /** How an event in play reaches the gate with Redis answering. */
  function Arrival(e: Event, carried: bool): Step {
    if carried then Deliver(0, Some(e), Answered)
    else Reconcile(0, if e.Emerg? then Mirrored(e.state) else Absent, Answered)
  }

  lemma SilencedPage(carried: Event -> bool, c: Event, e: Event) returns (steps: seq<Step>)
    requires InPlay(carried, c) && InPlay(carried, e)
    requires SeverityOf(c) == Critical && SeverityOf(e) != Critical && Fingerprint(c) == Fingerprint(e)
    ensures Carries(carried, steps) && !PagesSafe(Run(steps).log)
  {
    MaskedIsCarried(c, e);
    var s0, s1, s2 := StartUp(0, {}), Arrival(e, carried(e)), Deliver(0, Some(c), Answered);
    steps := [s0] + [s1] + [s2];
    RunSnoc([], s0);
    RunSnoc([s0], s1);
    RunSnoc([s0] + [s1], s2);
    var w0 := Next(INITIAL, s0);
    var w1 := Next(w0, s1);
    assert w1 == HandleAt(w0, 0, e, Answered, false);
    assert [] + [s0] == [s0];
    var log := Run(steps).log;
    assert log == [Entry(0, Classify(e), true, true), Entry(0, Classify(c), false, true)];
    assert !PagedRecently(log, 1);
  }

  /** A masked critical event is not one that boots synthesise. */
  lemma MaskedIsCarried(c: Event, e: Event)
    requires SeverityOf(c) == Critical && SeverityOf(e) != Critical && Fingerprint(c) == Fingerprint(e)
    ensures !(c.Emerg? && c.kind == "transition")
  {
    OnlyShadowsShareCritical(c, e);
    SameTail(c, e);
    if c.Emerg? && c.kind == "transition" {
      FirstPart("transition", c.state, e.kind, e.state);
      AlertingStatesAreColonFree(c.state);
      LastPart("transition", c.state, e.kind, e.state);
    }
  }

  /**
   A restart during a critical incident always pages again, whatever the keys hold and
   however Redis answers, and leaves the keys alone; during a warning it goes through
   the gate; in any other state it does nothing.
   */
  lemma BootPaging(w: World, r: nat, state: string, reply: Reply)
    requires r in w.lives
    ensures var w' := Next(w, Reconcile(r, Mirrored(state), reply));
            var m := Classify(Emerg("transition", state));
            if EmergCritical(state) then w'.claims == w.claims && w'.log == w.log + [Entry(w.now, m, true, false)]
            else if EmergWarning(state)
            then w'.log == w.log + [Entry(w.now, m, reply == Answered && !Held(w.claims, m.fingerprint, w.now), true)]
            else w' == w
  {
  }

  /** The process of a replica that restarts has empty channels; the shared keys and the other replicas are as before. */
  lemma RestartIsEmpty(w: World, r: nat, channels: set<string>)
    ensures var w' := Next(Next(w, Crash(r)), StartUp(r, channels));
            && r in w'.lives && w'.lives[r].workers.Keys == channels
            && (forall c :: c in channels ==> w'.lives[r].workers[c].queue == [] && w'.lives[r].workers[c].inHand.None?)
            && w'.claims == w.claims && w'.log == w.log && w'.now == w.now
            && (forall other :: other != r && other in w.lives ==> other in w'.lives && w'.lives[other] == w.lives[other])
  {
  }

  /** After 300 quiet seconds every key is free: any event is dispatched again by any replica. */
  lemma QuietWindowReopens(steps: seq<Step>, elapsed: nat, r: nat, e: Event)
    requires elapsed >= 300_000 && r in Run(steps).lives
    ensures var w := Next(Run(steps), Tick(elapsed));
            var w' := Next(w, Deliver(r, Some(e), Answered));
            w'.log == Run(steps).log + [Entry(Run(steps).now + elapsed, Classify(e), true, true)]
  {
    ClaimsEndInAWindow(steps);
    var w := Next(Run(steps), Tick(elapsed));
    assert !Held(w.claims, Fingerprint(e), w.now);
  }

  lemma ClaimsEndInAWindow(steps: seq<Step>)
    ensures forall f :: f in Run(steps).claims ==> Run(steps).claims[f] <= Run(steps).now + 300_000
  {
    GateInvariantHolds(_ => true, steps);
    var w := Run(steps);
    forall f | f in w.claims
      ensures w.claims[f] <= w.now + 300_000
    {
      var j: nat :| ClaimedBy(w, f, j);
      assert w.log[j].at <= w.now;
    }
  }

  /** A worker's steps in a run touch its own channel alone: a free one takes the oldest job, a busy one has it sent. */
  lemma WorkerSteps(w: World, r: nat, c: string)
    requires r in w.lives && c in w.lives[r].workers
    ensures var lane := w.lives[r].workers[c];
            var taken, sent := Next(w, TakeJob(r, c)), Next(w, FinishJob(r, c));
            && (lane.inHand.None? && lane.queue != [] ==>
                  taken == WithLane(w, r, c, lane.(queue := lane.queue[1..], inHand := Some(lane.queue[0]))))
            && (lane.inHand.Some? ==>
                  sent == WithLane(w, r, c, lane.(inHand := None, sent := lane.sent + [lane.inHand.value])))
  {
  }
}
