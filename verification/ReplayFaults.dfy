/**
 What a fixture does to the load-replay pool: which ones can hang it, raise out of it,
 or end it with a sound record unanswered. The conditions are read off the records.
 */
module ReplayFaults {
  import opened Options
  import opened ReplayPool

  // ---- Building runs ----

  lemma {:induction false} RaisingMonotone(c: Setup, j: nat, k: nat)
    requires j <= k
    ensures Raising(c, j) <= Raising(c, k) <= Raising(c, j) + k - j
  {
    if j < k {
      RaisingMonotone(c, j, k - 1);
    }
  }

  /** Something raises among the first k records exactly when one of them is the first to. */
  lemma {:induction false} FirstToRaise(c: Setup, k: nat) returns (j: nat)
    requires Raising(c, k) > 0
    ensures j < k && Raises(c, j) && Raising(c, j) == 0 && Raising(c, j + 1) == 1
  {
    if Raising(c, k - 1) > 0 {
      j := FirstToRaise(c, k - 1);
    } else {
      j := k - 1;
    }
  }

  /** The records before the first point at which every consumer is lost. */
  function FirstLoss(c: Setup, k: nat): (j: nat)
    requires Raising(c, k) >= c.workers
    ensures j <= k && Raising(c, j) == c.workers
    ensures j > 0 ==> Raising(c, j - 1) < c.workers
  {
    if k > 0 && Raising(c, k - 1) >= c.workers then FirstLoss(c, k - 1) else k
  }

  predicate Ready(s: State) {
    s.outcome.Running? && s.phase.Head? && s.queue == [] && s.next !in s.busy && s.idle > 0
  }

  function AfterOne(c: Setup, s: State): State
    requires s.idle > 0
  {
    if Raises(c, s.next) then s.(next := s.next + 1, idle := s.idle - 1, died := s.died + 1)
    else s.(next := s.next + 1, results := s.results + [s.next])
  }

  /** The next record is put, taken and ended, on an empty queue with an idle consumer. */
  lemma OneRecord(c: Setup, before: seq<Step>) returns (steps: seq<Step>)
    requires Ready(Run(c, before)) && Run(c, before).next < Reach(c)
    ensures Run(c, steps) == AfterOne(c, Run(c, before))
  {
    var s := Run(c, before);
    var putting := PutOne(c, before);
    var put := s.(next := s.next + 1, queue := [Record(s.next)]);
    assert Run(c, putting) == put;
    steps := TakeAndEnd(c, putting, s.next);
    assert put.(queue := [], idle := s.idle - 1, died := s.died + 1)
        == s.(next := s.next + 1, idle := s.idle - 1, died := s.died + 1);
  }

  /** The only record on the queue is taken and ended. */
  lemma TakeAndEnd(c: Setup, before: seq<Step>, i: nat) returns (steps: seq<Step>)
    requires var s := Run(c, before);
             s.outcome.Running? && s.queue == [Record(i)] && i !in s.busy && s.idle > 0
    ensures var s := Run(c, before);
            Run(c, steps) == if Raises(c, i) then s.(queue := [], idle := s.idle - 1, died := s.died + 1)
                             else s.(queue := [], results := s.results + [i])
  {
    var s := Run(c, before);
    var end := if Raises(c, i) then Raise(i) else Complete(i);
    steps := before + [Get] + [end];
    RunSnoc(c, before, Get);
    RunSnoc(c, before + [Get], end);
    assert Run(c, before + [Get]) == s.(queue := [], idle := s.idle - 1, busy := s.busy + {i});
    assert s.busy + {i} - {i} == s.busy;
  }

  /** The state after the records up to k, one at a time, while a consumer is left. */
  function AfterEach(c: Setup, s: State, k: nat, results: seq<nat>): State
    requires s.next <= k && Raising(c, s.next) <= Raising(c, k) <= Raising(c, s.next) + s.idle
  {
    var lost := Raising(c, k) - Raising(c, s.next);
    s.(next := k, idle := s.idle - lost, died := s.died + lost, results := results)
  }

  lemma AfterNone(c: Setup, s: State)
    ensures AfterEach(c, s, s.next, s.results) == s
  {
  }

  lemma OneMoreEach(c: Setup, s: State, j: nat, k: nat, soFar: seq<nat>)
    requires k == j + 1 && s.next <= j && Raising(c, s.next) <= Raising(c, j) < Raising(c, s.next) + s.idle
    ensures Raising(c, s.next) <= Raising(c, k) <= Raising(c, s.next) + s.idle
    ensures AfterOne(c, AfterEach(c, s, j, soFar)) == AfterEach(c, s, k, if Raises(c, j) then soFar else soFar + [j])
  {
    assert Raising(c, k) == Raising(c, j) + if Raises(c, j) then 1 else 0;
  }

  lemma EachThenOne(c: Setup, s: State, most: seq<Step>, j: nat, k: nat, soFar: seq<nat>)
    returns (steps: seq<Step>, results: seq<nat>)
    requires s.outcome.Running? && s.phase.Head? && s.queue == [] && forall i :: i in s.busy ==> i < s.next
    requires k == j + 1 && s.next <= j < Reach(c)
    requires Raising(c, s.next) <= Raising(c, j) < Raising(c, s.next) + s.idle
    requires Run(c, most) == AfterEach(c, s, j, soFar)
    ensures Raising(c, s.next) <= Raising(c, k) <= Raising(c, s.next) + s.idle
    ensures Run(c, steps) == AfterEach(c, s, k, results)
  {
    OneMoreEach(c, s, j, k, soFar);
    results := if Raises(c, j) then soFar else soFar + [j];
    steps := OneRecord(c, most);
  }

  lemma {:induction false} OneByOneFrom(c: Setup, before: seq<Step>, s: State, k: nat)
    returns (steps: seq<Step>, results: seq<nat>)
    requires s == Run(c, before) && s.outcome.Running? && s.phase.Head? && s.queue == []
    requires s.next <= k <= Reach(c) && forall i :: i in s.busy ==> i < s.next
    requires s.next < k ==> Raising(c, k - 1) < Raising(c, s.next) + s.idle
    ensures Raising(c, s.next) <= Raising(c, k) <= Raising(c, s.next) + s.idle
    ensures Run(c, steps) == AfterEach(c, s, k, results)
  {
    if k == s.next {
      steps, results := before, s.results;
      AfterNone(c, s);
    } else {
      var j := k - 1;
      RaisingMonotone(c, if s.next < j then j - 1 else j, j);
      var most, soFar := OneByOneFrom(c, before, s, j);
      steps, results := EachThenOne(c, s, most, j, k, soFar);
    }
  }

  lemma OneByOne(c: Setup, j: nat) returns (steps: seq<Step>, results: seq<nat>)
    requires j <= Reach(c)
    requires j > 0 ==> Raising(c, j - 1) < c.workers
    ensures Raising(c, j) <= c.workers
    ensures Run(c, steps) == State(Head, false, j, [], c.workers - Raising(c, j), {}, 0, Raising(c, j), results, Running)
  {
    steps, results := OneByOneFrom(c, [], Initial(c), j);
  }

  lemma PutOne(c: Setup, before: seq<Step>) returns (steps: seq<Step>)
    requires var s := Run(c, before);
             s.outcome.Running? && s.phase.Head? && s.next < Reach(c) && |s.queue| < Capacity(c)
    ensures var s := Run(c, before);
            Run(c, steps) == s.(next := s.next + 1, queue := s.queue + [Record(s.next)])
  {
    steps := before + [Commit] + [Put];
    RunSnoc(c, before, Commit);
    RunSnoc(c, before + [Commit], Put);
  }

  lemma OneMoreRecord(queue: seq<Item>, from: nat, to: nat)
    requires from <= to
    ensures queue + Records(from, to) + [Record(to)] == queue + Records(from, to + 1)
  {
    assert Records(from, to) + [Record(to)] == Records(from, to + 1);
  }

  lemma OneMoreSentinel(queue: seq<Item>, n: nat)
    ensures queue + Sentinels(n) + [Sentinel] == queue + Sentinels(n + 1)
  {
    assert Sentinels(n) + [Sentinel] == Sentinels(n + 1);
  }

  function AfterPuts(s: State, n: nat): State {
    s.(next := s.next + n, queue := s.queue + Records(s.next, s.next + n))
  }

  lemma OneMorePut(s: State, n: nat)
    ensures AfterPuts(s, 0) == s
    ensures var t := AfterPuts(s, n);
            t.(next := t.next + 1, queue := t.queue + [Record(t.next)]) == AfterPuts(s, n + 1)
  {
    assert s.queue + Records(s.next, s.next) == s.queue;
    OneMoreRecord(s.queue, s.next, s.next + n);
  }

  /** With room in the queue the producer puts n more records. */
  lemma {:induction false} PutMore(c: Setup, before: seq<Step>, n: nat) returns (steps: seq<Step>)
    requires var s := Run(c, before);
             && s.outcome.Running? && s.phase.Head?
             && s.next + n <= Reach(c) && |s.queue| + n <= Capacity(c)
    ensures Run(c, steps) == AfterPuts(Run(c, before), n)
  {
    OneMorePut(Run(c, before), if n == 0 then 0 else n - 1);
    if n == 0 {
      steps := before;
    } else {
      var most := PutMore(c, before, n - 1);
      steps := PutOne(c, most);
    }
  }

  /** With room in the queue the producer stops reading and puts n sentinels. */
  lemma {:induction false} StopAndSignal(c: Setup, before: seq<Step>, n: nat) returns (steps: seq<Step>)
    requires var s := Run(c, before);
             && s.outcome.Running? && s.phase.Head?
             && n <= c.workers && |s.queue| + n <= Capacity(c)
    ensures var s := Run(c, before);
            Run(c, steps) == s.(phase := Signalling(n), queue := s.queue + Sentinels(n))
  {
    var s := Run(c, before);
    if n == 0 {
      steps := before + [Stop];
      RunSnoc(c, before, Stop);
      assert s.queue + Sentinels(0) == s.queue;
    } else {
      var most := StopAndSignal(c, before, n - 1);
      steps := most + [Signal];
      RunSnoc(c, most, Signal);
      OneMoreSentinel(s.queue, n - 1);
    }
  }

  /** A consumer is lost and the sentinels fit: the run can raise at once. */
  lemma StopAndRaise(c: Setup, before: seq<Step>) returns (steps: seq<Step>)
    requires var s := Run(c, before);
             && s.outcome.Running? && s.phase.Head? && s.died > 0 && |s.queue| + c.workers <= Capacity(c)
    ensures Run(c, steps).outcome == Raised
    ensures var s, s' := Run(c, before), Run(c, steps);
            && s'.next == s.next && s'.busy == s.busy && s'.exited == s.exited && s'.results == s.results
            && |s'.queue| == |s.queue| + c.workers && Sent(s') == c.workers
  {
    var most := StopAndSignal(c, before, c.workers);
    steps := most + [Abort];
    RunSnoc(c, most, Abort);
  }

  // ---- When the pool hangs ----

  /**
   Enough raising records to end every consumer, and behind them more records and
   sentinels than the queue holds.
   */
  predicate Blocks(c: Setup, k: nat) {
    k <= Reach(c) && Raising(c, k) >= c.workers && Reach(c) - k + c.workers > Capacity(c)
  }

  /** A stuck pool has its producer asleep, or has lost every consumer and has a full queue. */
  lemma StuckMeansBlocked(c: Setup, s: State, taken: nat)
    requires Inv(c, s, taken) && Stuck(c, s)
    ensures if s.phase.Asleep? then EndsAsleep(c) else Blocks(c, taken)
  {
    StuckMeansIdle(c, s);
    assert !Enabled(c, s, Commit) && !Enabled(c, s, BadDelay) && !Enabled(c, s, Doze) && !Enabled(c, s, Put);
    assert !Enabled(c, s, Stop) && !Enabled(c, s, Signal) && !Enabled(c, s, Return) && !Enabled(c, s, Abort);
    assert |s.queue| == s.next - taken + Sent(s) - s.exited;
  }

  lemma StuckMeansIdle(c: Setup, s: State)
    requires Stuck(c, s)
    ensures s.busy == {} && Doomed(c, s) == {} && (s.idle == 0 || s.queue == [])
  {
    assert !Enabled(c, s, Get);
    assert forall i: nat :: i in s.busy ==> Enabled(c, s, if Raises(c, i) then Raise(i) else Complete(i));
    assert s.busy == {};
  }

  /** Every consumer is lost, the queue is empty, and what is left to put does not fit it. */
  predicate LostAhead(c: Setup, s: State) {
    && s.outcome.Running? && s.phase.Head? && s.queue == [] && s.idle == 0 && s.busy == {}
    && s.next <= Reach(c) && Reach(c) - s.next + c.workers > Capacity(c)
  }

  lemma LostOnRecord(c: Setup, start: seq<Step>)
    requires LostAhead(c, Run(c, start)) && Reach(c) - Run(c, start).next > Capacity(c)
    ensures exists steps :: Stuck(c, Run(c, steps))
  {
    var before := PutMore(c, start, Capacity(c));
    var s := Run(c, before);
    assert |s.queue| == Capacity(c) && s.next < Reach(c);
    RunSnoc(c, before, Commit);
    FullAndLostIsStuck(c, s.(phase := Putting));
  }

  lemma LostOnSentinel(c: Setup, start: seq<Step>)
    requires LostAhead(c, Run(c, start)) && Reach(c) - Run(c, start).next <= Capacity(c)
    ensures exists steps :: Stuck(c, Run(c, steps))
  {
    var left := Reach(c) - Run(c, start).next;
    var before := PutMore(c, start, left);
    var steps := StopAndSignal(c, before, Capacity(c) - left);
    FullAndLostIsStuck(c, Run(c, steps));
  }

  lemma BlockedHangs(c: Setup, k: nat)
    requires Blocks(c, k)
    ensures exists steps :: Stuck(c, Run(c, steps))
  {
    var start, results := OneByOne(c, FirstLoss(c, k));
    if Reach(c) - FirstLoss(c, k) > Capacity(c) {
      LostOnRecord(c, start);
    } else {
      LostOnSentinel(c, start);
    }
  }

  lemma FullAndLostIsStuck(c: Setup, s: State)
    requires s.outcome.Running? && s.idle == 0 && s.busy == {} && |s.queue| == Capacity(c)
    requires s.phase.Putting? || (s.phase.Signalling? && s.phase.sent < c.workers)
    ensures Stuck(c, s)
  {
  }

  /** The producer falls asleep before the record, and the consumers run dry. */
  lemma DozeHangs(c: Setup, before: seq<Step>)
    requires EndsAsleep(c)
    requires var s := Run(c, before); s.outcome.Running? && s.phase.Head? && s.next == Reach(c)
    ensures exists steps :: Stuck(c, Run(c, steps))
  {
    RunSnoc(c, before, Doze);
    assert Run(c, before + [Doze]).phase.Asleep?;
    var steps := RunOut(c, before + [Doze]);
    AsleepIsRunning(c, steps);
  }

  lemma AsleepIsRunning(c: Setup, steps: seq<Step>)
    requires Run(c, steps).phase.Asleep?
    ensures Run(c, steps).outcome.Running?
  {
    var taken := EveryRunInv(c, steps);
  }

  /** The producer gets to the record, or is held up on the way there. */
  lemma AsleepHangs(c: Setup)
    requires EndsAsleep(c)
    ensures exists steps :: Stuck(c, Run(c, steps))
  {
    if Raising(c, Reach(c)) < c.workers {
      if Reach(c) > 0 {
        RaisingMonotone(c, Reach(c) - 1, Reach(c));
      }
      var before, results := OneByOne(c, Reach(c));
      DozeHangs(c, before);
    } else {
      var j := FirstLoss(c, Reach(c));
      if Reach(c) - j > Capacity(c) {
        BlockedHangs(c, j);
      } else {
        var start, results := OneByOne(c, j);
        var before := PutMore(c, start, Reach(c) - j);
        DozeHangs(c, before);
      }
    }
  }

  /** The fixture blocks the pool, or its first delay the producer does not get past is infinite. */
  ghost predicate CanHang(c: Setup) {
    EndsAsleep(c) || exists k :: Blocks(c, k)
  }

  /** Some run of the pool hangs exactly when the fixture blocks it or puts its producer to sleep for good. */
  lemma HangsExactly(c: Setup)
    ensures (exists steps :: Stuck(c, Run(c, steps))) <==> CanHang(c)
  {
    if steps :| Stuck(c, Run(c, steps)) {
      var taken := EveryRunInv(c, steps);
      StuckMeansBlocked(c, Run(c, steps), taken);
    }
    if EndsAsleep(c) {
      AsleepHangs(c);
    } else if k :| Blocks(c, k) {
      BlockedHangs(c, k);
    }
  }

  /** The time window does not cut the fixture short. */
  ghost predicate ReadsToEnd(c: Setup, steps: seq<Step>) {
    forall k :: 0 <= k < |steps| && steps[k].Stop? && Run(c, steps[..k]).phase.Head? ==>
      Run(c, steps[..k]).next == |c.records|
  }

  lemma ReadsToEndBefore(c: Setup, steps: seq<Step>)
    requires steps != [] && ReadsToEnd(c, steps)
    ensures ReadsToEnd(c, steps[..|steps| - 1])
  {
    var before := steps[..|steps| - 1];
    forall k | 0 <= k < |before| && before[k].Stop? && Run(c, before[..k]).phase.Head?
      ensures Run(c, before[..k]).next == |c.records|
    {
      assert before[..k] == steps[..k] && before[k] == steps[k];
    }
  }

  lemma SignallingStarts(c: Setup, s: State, step: Step, taken: nat)
    requires QueueInv(c, s, taken) && Next(c, s, step).phase.Signalling? && !s.phase.Signalling?
    requires step.Stop? && s.phase.Head? ==> s.next == |c.records|
    ensures Next(c, s, step).next == Reach(c) && !EndsAsleep(c)
  {
  }

  lemma {:induction false} SignalsAfterReach(c: Setup, steps: seq<Step>)
    requires ReadsToEnd(c, steps) && Run(c, steps).phase.Signalling?
    ensures Run(c, steps).next == Reach(c) && !EndsAsleep(c)
  {
    if steps != [] {
      var before := steps[..|steps| - 1];
      ReadsToEndBefore(c, steps);
      if Run(c, before).phase.Signalling? {
        SignalsAfterReach(c, before);
      } else {
        var taken := EveryRunInv(c, before);
        SignallingStarts(c, Run(c, before), steps[|steps| - 1], taken);
      }
    }
  }

  /** A blocked fixture that is read to its end never lets the run end, in any schedule. */
  lemma BlockedNeverEnds(c: Setup, k: nat, steps: seq<Step>)
    requires Blocks(c, k) && ReadsToEnd(c, steps)
    ensures Run(c, steps).outcome.Running?
  {
    var s := Run(c, steps);
    var taken := EveryRunInv(c, steps);
    DoomedWithinBusy(c, s);
    if s.phase.Signalling? {
      SignalsAfterReach(c, steps);
      TakenBeforeLoss(c, s, taken, k);
    }
  }

  /** Past the loss of every consumer nothing is taken, so not all sentinels fit. */
  lemma TakenBeforeLoss(c: Setup, s: State, taken: nat, k: nat)
    requires Inv(c, s, taken) && Blocks(c, k) && s.phase.Signalling? && s.next == Reach(c)
    ensures s.phase.sent < c.workers
  {
    DoomedWithinBusy(c, s);
    RaisingMonotone(c, if taken > k then k else taken, if taken > k then taken - 1 else k);
    assert taken <= k;
    assert |s.queue| == s.next - taken + Sent(s) - s.exited;
  }

  /** Nor does one with an infinite delay. */
  lemma AsleepNeverEnds(c: Setup, steps: seq<Step>)
    requires EndsAsleep(c) && ReadsToEnd(c, steps)
    ensures Run(c, steps).outcome.Running?
  {
    var taken := EveryRunInv(c, steps);
    if Run(c, steps).phase.Signalling? {
      SignalsAfterReach(c, steps);
    }
  }

  /**
   Every fixture is of one of two kinds: read to its end it hangs in every schedule, or
   it hangs in none and every run ends.
   */
  lemma HangIsDecidedByTheFixture(c: Setup)
    ensures if CanHang(c)
            then forall steps :: ReadsToEnd(c, steps) ==> Run(c, steps).outcome.Running?
            else forall steps :: Final(c, Run(c, steps)) ==> !Run(c, steps).outcome.Running?
  {
    HangsExactly(c);
    if CanHang(c) {
      forall steps | ReadsToEnd(c, steps)
        ensures Run(c, steps).outcome.Running?
      {
        if EndsAsleep(c) {
          AsleepNeverEnds(c, steps);
        } else {
          var k :| Blocks(c, k);
          BlockedNeverEnds(c, k, steps);
        }
      }
    }
  }

  /** With a consumer, no raising record and every delay finite, every finished run returns. */
  lemma SoundFixturesReturn(c: Setup, steps: seq<Step>)
    requires c.workers > 0 && forall i: nat :: i < |c.records| ==> !Raises(c, i) && DelayOf(c, c.records[i]).Wakes?
    requires Final(c, Run(c, steps))
    ensures Run(c, steps).outcome == Returned
  {
    assert Reach(c) == |c.records|;
    var taken := EveryRunInv(c, steps);
    NoneRaise(c, taken);
    if Stuck(c, Run(c, steps)) {
      StuckMeansBlocked(c, Run(c, steps), taken);
    }
  }
}
