/**
 How often one fingerprint is dispatched, over all replicas together, in the runs
 of `AlertProtocol` in which Redis answers every call.
 */
module AlertSpacing {
  import opened AlertSeverity
  import opened AlertPipeline
  import opened Alerter
  import opened AlertProtocol
  import opened Options

  ghost predicate RedisAnswers(steps: seq<Step>) {
    forall step :: step in steps && (step.Deliver? || step.Reconcile?) ==> step.reply == Answered
  }

  predicate GatedDispatch(e: Entry, fingerprint: string) {
    e.gated && e.dispatched && e.message.fingerprint == fingerprint
  }

  /** Gated dispatches of one fingerprint are at least a window apart. */
  ghost predicate Spaced(log: seq<Entry>) {
    forall i, j :: 0 <= i < j < |log| && log[i].gated && log[i].dispatched
                   && GatedDispatch(log[j], log[i].message.fingerprint)
      ==> log[i].at + 300_000 <= log[j].at
  }

  /** An entry that went past the gate is the reconciliation of a critical boot. */
  predicate FromCriticalBoot(e: Entry) {
    e.dispatched && e.message.severity == Critical && e.message.about.Emerg? && e.message.about.kind == "transition"
  }

  ghost predicate SpacingInvariant(w: World) {
    && Spaced(w.log)
    && (forall i :: 0 <= i < |w.log| ==>
          && w.log[i].at <= w.now
          && (!w.log[i].gated ==> FromCriticalBoot(w.log[i]))
          && (w.log[i].gated && w.log[i].dispatched ==>
                w.log[i].message.fingerprint in w.claims
                && w.log[i].at + 300_000 <= w.claims[w.log[i].message.fingerprint]))
  }

  lemma HandleKeepsSpacing(w: World, r: nat, e: Event, bypass: bool)
    requires SpacingInvariant(w) && r in w.lives
    requires bypass ==> e.Emerg? && e.kind == "transition" && EmergCritical(e.state)
    ensures SpacingInvariant(HandleAt(w, r, e, Answered, bypass))
  {
    var w' := HandleAt(w, r, e, Answered, bypass);
    assert w'.log[..|w.log|] == w.log;
  }

  lemma {:induction false} EveryRunSpaced(steps: seq<Step>)
    requires RedisAnswers(steps)
    ensures SpacingInvariant(Run(steps))
  {
    if steps != [] {
      var before, step := steps[..|steps| - 1], steps[|steps| - 1];
      assert step in steps;
      EveryRunSpaced(before);
      var w := Run(before);
      match step
      case Deliver(r, payload, reply) =>
        if r in w.lives && payload.Some? {
          HandleKeepsSpacing(w, r, payload.value, false);
        }
      case Reconcile(r, mirror, reply) =>
        if r in w.lives && BootEvent(mirror).Some? {
          HandleKeepsSpacing(w, r, BootEvent(mirror).value, BootBypasses(mirror));
        }
      case _ =>
    }
  }

  predicate InWindow(e: Entry, fingerprint: string, from: int, to: int) {
    e.dispatched && e.message.fingerprint == fingerprint && from <= e.at <= to
  }

  function Dispatches(log: seq<Entry>, fingerprint: string, from: int, to: int): nat {
    if log == [] then 0
    else Dispatches(log[..|log| - 1], fingerprint, from, to)
         + if InWindow(log[|log| - 1], fingerprint, from, to) then 1 else 0
  }

  function BootDispatches(log: seq<Entry>, fingerprint: string, from: int, to: int): nat {
    if log == [] then 0
    else BootDispatches(log[..|log| - 1], fingerprint, from, to)
         + if InWindow(log[|log| - 1], fingerprint, from, to) && !log[|log| - 1].gated then 1 else 0
  }

  lemma {:induction false} AtMostOneGated(log: seq<Entry>, fingerprint: string, from: int, to: int)
    requires Spaced(log) && to - from < 300_000
    ensures Dispatches(log, fingerprint, from, to) <= 1 + BootDispatches(log, fingerprint, from, to)
    ensures (forall i :: 0 <= i < |log| && log[i].gated ==> !InWindow(log[i], fingerprint, from, to)) ==>
              Dispatches(log, fingerprint, from, to) == BootDispatches(log, fingerprint, from, to)
  {
    if log != [] {
      var before, last := log[..|log| - 1], log[|log| - 1];
      AtMostOneGated(before, fingerprint, from, to);
      if InWindow(last, fingerprint, from, to) && last.gated {
        forall i | 0 <= i < |before| && before[i].gated
          ensures !InWindow(before[i], fingerprint, from, to)
        {
          assert before[i] == log[i];
        }
      }
    }
  }

  /**
   In any window shorter than the dedup window, the replicas together dispatch a
   fingerprint at most once, plus once for every critical boot in the window.
   */
  lemma WindowBound(steps: seq<Step>, fingerprint: string, from: int, to: int)
    requires RedisAnswers(steps) && to - from < 300_000
    ensures Dispatches(Run(steps).log, fingerprint, from, to)
         <= 1 + BootDispatches(Run(steps).log, fingerprint, from, to)
    ensures forall e :: e in Run(steps).log && !e.gated ==> FromCriticalBoot(e)
  {
    EveryRunSpaced(steps);
    AtMostOneGated(Run(steps).log, fingerprint, from, to);
  }

  // ---- With Redis failing ----

  /** The gated dispatches of one fingerprint are at least a window apart. */
  ghost predicate SpacedAt(log: seq<Entry>, fingerprint: string) {
    forall i, j :: 0 <= i < j < |log| && GatedDispatch(log[i], fingerprint) && GatedDispatch(log[j], fingerprint)
      ==> log[i].at + 300_000 <= log[j].at
  }

  /** No carried critical event has the fingerprint, so whatever it passes the gate for has claimed it. */
  ghost predicate FingerprintInvariant(w: World, fingerprint: string) {
    && SpacedAt(w.log, fingerprint)
    && (forall i :: 0 <= i < |w.log| && GatedDispatch(w.log[i], fingerprint) ==>
          fingerprint in w.claims && w.log[i].at + 300_000 <= w.claims[fingerprint])
  }

  lemma HandleKeepsFingerprint(w: World, r: nat, e: Event, reply: Reply, bypass: bool, fingerprint: string)
    requires FingerprintInvariant(w, fingerprint) && r in w.lives
    requires !bypass && Fingerprint(e) == fingerprint ==> SeverityOf(e) != Critical
    ensures FingerprintInvariant(HandleAt(w, r, e, reply, bypass), fingerprint)
  {
    var w' := HandleAt(w, r, e, reply, bypass);
    assert w'.log[..|w.log|] == w.log;
  }

  ghost predicate CarriesCritical(carried: Event -> bool, fingerprint: string) {
    exists c: Event :: carried(c) && SeverityOf(c) == Critical && Fingerprint(c) == fingerprint
  }

  lemma {:induction false} LowTiersStaySpaced(carried: Event -> bool, fingerprint: string, steps: seq<Step>)
    requires !CarriesCritical(carried, fingerprint) && Carries(carried, steps)
    ensures FingerprintInvariant(Run(steps), fingerprint)
  {
    if steps != [] {
      var before, step := steps[..|steps| - 1], steps[|steps| - 1];
      assert step in steps;
      LowTiersStaySpaced(carried, fingerprint, before);
      var w := Run(before);
      match step
      case Deliver(r, payload, reply) =>
        if r in w.lives && payload.Some? {
          HandleKeepsFingerprint(w, r, payload.value, reply, false, fingerprint);
        }
      case Reconcile(r, mirror, reply) =>
        if r in w.lives && BootEvent(mirror).Some? {
          HandleKeepsFingerprint(w, r, BootEvent(mirror).value, reply, BootBypasses(mirror), fingerprint);
        }
      case _ =>
    }
  }

  /** A critical event fails open every time Redis does. */
  lemma CriticalBreaksSpacing(carried: Event -> bool, c: Event) returns (steps: seq<Step>)
    requires carried(c) && SeverityOf(c) == Critical
    ensures Carries(carried, steps) && !SpacedAt(Run(steps).log, Fingerprint(c))
  {
    var s0, failing := StartUp(0, {}), Deliver(0, Some(c), Failed(false));
    RunSnoc([], s0);
    RunSnoc([] + [s0], failing);
    RunSnoc([] + [s0] + [failing], failing);
    steps := [] + [s0] + [failing] + [failing];
    var w := Run(steps);
    assert w.log == [Entry(0, Classify(c), true, true), Entry(0, Classify(c), true, true)];
    assert GatedDispatch(w.log[0], Fingerprint(c)) && GatedDispatch(w.log[1], Fingerprint(c));
  }

  /**
   However Redis fails, a fingerprint's gated dispatches are a window apart in every run
   exactly when the streams carry no critical event with that fingerprint.
   */
  lemma SpacedDespiteFailuresExactly(carried: Event -> bool, fingerprint: string)
    ensures (forall steps :: Carries(carried, steps) ==> SpacedAt(Run(steps).log, fingerprint))
       <==> !CarriesCritical(carried, fingerprint)
  {
    if CarriesCritical(carried, fingerprint) {
      var c: Event :| carried(c) && SeverityOf(c) == Critical && Fingerprint(c) == fingerprint;
      var steps := CriticalBreaksSpacing(carried, c);
    } else {
      forall steps | Carries(carried, steps)
        ensures SpacedAt(Run(steps).log, fingerprint)
      {
        LowTiersStaySpaced(carried, fingerprint, steps);
      }
    }
  }
}
