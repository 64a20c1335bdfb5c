/**
 Which fixtures can make a run of the load-replay pool raise, and which can end a run
 with an enqueued sound record unanswered.
 */
module ReplayLosses {
  import opened Options
  import opened ReplayPool
  import opened ReplayFaults

  // ---- When a run raises ----

  /** The records up to the first that raises, one at a time. */
  lemma ToFirstRaise(c: Setup, j: nat) returns (steps: seq<Step>, results: seq<nat>)
    requires c.workers > 0 && j < Reach(c) && Raises(c, j) && Raising(c, j) == 0
    ensures Run(c, steps) == State(Head, false, j + 1, [], c.workers - 1, {}, 0, 1, results, Running)
  {
    steps, results := OneByOne(c, j + 1);
  }

  lemma RaisingRecordRaises(c: Setup)
    requires c.workers > 0 && Raising(c, Reach(c)) > 0
    ensures exists steps :: Run(c, steps).outcome == Raised
  {
    var j := FirstToRaise(c, Reach(c));
    var start, results := ToFirstRaise(c, j);
    var steps := StopAndRaise(c, start);
  }

  lemma BadDelayRaises(c: Setup)
    requires EndsUnreadable(c)
    requires if c.workers > 0 then Raising(c, Reach(c)) == 0 else Reach(c) <= Capacity(c)
    ensures exists steps :: Run(c, steps).outcome == Raised
  {
    var before: seq<Step>;
    if c.workers > 0 {
      if Reach(c) > 0 {
        RaisingMonotone(c, Reach(c) - 1, Reach(c));
      }
      var results;
      before, results := OneByOne(c, Reach(c));
    } else {
      before := PutMore(c, [], Reach(c));
    }
    RunSnoc(c, before, BadDelay);
    var steps := RunOut(c, before + [BadDelay]);
    var taken := EveryRunInv(c, steps);
    RaisingMonotone(c, taken, Reach(c));
    if Run(c, steps).outcome.Running? {
      StuckMeansBlocked(c, Run(c, steps), taken);
    }
  }

  /**
   Some run raises exactly when a record in reach raises, or one with an unreadable
   delay can be reached: without consumers the records before it must fit the queue.
   */
  lemma RaisesExactly(c: Setup)
    ensures (exists steps :: Run(c, steps).outcome == Raised) <==>
            || (c.workers > 0 && exists j: nat :: j < Reach(c) && Raises(c, j))
            || (EndsUnreadable(c) && (c.workers > 0 || Reach(c) <= Capacity(c)))
  {
    NoneRaise(c, Reach(c));
    if steps :| Run(c, steps).outcome == Raised {
      var taken := EveryRunInv(c, steps);
      RaisingMonotone(c, taken, Reach(c));
    }
    if c.workers > 0 && Raising(c, Reach(c)) > 0 {
      RaisingRecordRaises(c);
    } else if EndsUnreadable(c) && (c.workers > 0 || Reach(c) <= Capacity(c)) {
      BadDelayRaises(c);
    }
  }

  // ---- When a run ends without a sound record's result ----

  /** i is sound, j the first record that raises. */
  predicate SoundAndFirst(c: Setup, i: nat, j: nat) {
    i < Reach(c) && j < Reach(c) && !Raises(c, i) && Raises(c, j) && Raising(c, j) == 0
  }

  /**
   Without consumers: a sound record fits the queue. Otherwise: some record raises, and
   a sound one is before it with another consumer to hold it, or less than a queue behind.
   */
  ghost predicate CanLose(c: Setup) {
    if c.workers == 0 then exists i: nat :: i < Reach(c) && i < Capacity(c) && !Raises(c, i)
    else exists i: nat, j: nat :: SoundAndFirst(c, i, j) && ((i < j && c.workers >= 2) || j < i < j + Capacity(c))
  }

  ghost predicate EndsMissing(c: Setup, steps: seq<Step>, i: nat) {
    !Run(c, steps).outcome.Running? && Missing(c, Run(c, steps), i)
  }

  /** No consumer: the run returns with the record still on the queue. */
  lemma LeftOnQueue(c: Setup, i: nat)
    requires c.workers == 0 && i < Reach(c) && i < Capacity(c) && !Raises(c, i)
    ensures exists steps :: EndsMissing(c, steps, i)
  {
    var put := PutMore(c, [], i + 1);
    var steps := StopAndSignal(c, put, 0);
    RunSnoc(c, steps, Return);
    ReturnIsComplete(c, steps + [Return]);
    assert EndsMissing(c, steps + [Return], i);
  }

  /** The first record is put and taken. */
  lemma HoldFirst(c: Setup) returns (steps: seq<Step>)
    requires c.workers > 0 && Reach(c) > 0
    ensures Run(c, steps) == State(Head, false, 1, [], c.workers - 1, {0}, 0, 0, [], Running)
  {
    var put := PutMore(c, [], 1);
    assert Run(c, put) == Initial(c).(next := 1, queue := [Record(0)]);
    steps := put + [Get];
    RunSnoc(c, put, Get);
  }

  /** A consumer holds the first record while another is lost to a later one. */
  lemma LoseHeld(c: Setup, j: nat)
    requires c.workers >= 2 && 0 < j && SoundAndFirst(c, 0, j)
    ensures exists steps :: EndsMissing(c, steps, 0)
  {
    var held := HoldFirst(c);
    RaisingMonotone(c, 1, j);
    var lost, results := OneByOneFrom(c, held, Run(c, held), j + 1);
    var steps := StopAndRaise(c, lost);
    HeldIsMissing(c, steps, 0);
  }

  lemma HeldIsMissing(c: Setup, steps: seq<Step>, i: nat)
    requires !Run(c, steps).outcome.Running? && i in Run(c, steps).busy && !Raises(c, i)
    ensures EndsMissing(c, steps, i)
  {
    var taken := EveryRunInv(c, steps);
  }

  /** A consumer is lost and the last record put is still on the queue. */
  lemma LoseQueued(c: Setup, before: seq<Step>, i: nat)
    requires var s := Run(c, before);
             && s.outcome.Running? && s.phase.Head? && s.died > 0 && s.exited == 0
             && s.queue != [] && |s.queue| + c.workers <= Capacity(c) && s.next == i + 1
    requires !Raises(c, i)
    ensures exists steps :: EndsMissing(c, steps, i)
  {
    var steps := StopAndRaise(c, before);
    var taken := EveryRunInv(c, steps);
    assert |Run(c, steps).queue| == i + 1 - taken + c.workers;
    assert EndsMissing(c, steps, i);
  }

  /** The only consumer is lost. */
  lemma LoseBehindLast(c: Setup, i: nat, j: nat)
    requires c.workers == 1 && SoundAndFirst(c, i, j) && j < i < j + Capacity(c)
    ensures exists steps :: EndsMissing(c, steps, i)
  {
    var start, results := ToFirstRaise(c, j);
    var put := PutMore(c, start, i - j);
    LoseQueued(c, put, i);
  }

  lemma {:induction false} AllRaise(c: Setup, k: nat)
    ensures (forall m: nat :: m < k ==> Raises(c, m)) ==> Raising(c, k) == k
  {
    if k > 0 {
      AllRaise(c, k - 1);
    }
  }

  /** The fixture begins with raising records, i is the first sound one. */
  lemma LoseBehindRaising(c: Setup, i: nat)
    requires c.workers > 0 && 0 < i < Capacity(c) && i < Reach(c) && !Raises(c, i)
    requires forall m: nat :: m < i ==> Raises(c, m)
    ensures exists steps :: EndsMissing(c, steps, i)
  {
    var t := if i < c.workers then i else c.workers;
    AllRaise(c, t - 1);
    AllRaise(c, t);
    var start, results := OneByOne(c, t);
    var put := PutMore(c, start, i + 1 - t);
    LoseQueued(c, put, i);
  }

  function FirstSound(c: Setup, i: nat): (f: nat)
    requires !Raises(c, i)
    ensures f <= i && !Raises(c, f) && forall m: nat :: m < f ==> Raises(c, m)
  {
    FirstSoundFrom(c, 0, i)
  }

  function FirstSoundFrom(c: Setup, k: nat, i: nat): (f: nat)
    requires k <= i && !Raises(c, i) && forall m: nat :: m < k ==> Raises(c, m)
    ensures f <= i && !Raises(c, f) && forall m: nat :: m < f ==> Raises(c, m)
    decreases i - k
  {
    if Raises(c, k) then FirstSoundFrom(c, k + 1, i) else k
  }

  lemma LosesIfItCan(c: Setup)
    requires CanLose(c)
    ensures exists steps, i: nat :: EndsMissing(c, steps, i)
  {
    if c.workers == 0 {
      var i: nat :| i < Reach(c) && i < Capacity(c) && !Raises(c, i);
      LeftOnQueue(c, i);
    } else {
      var i: nat, j: nat :|
        SoundAndFirst(c, i, j) && ((i < j && c.workers >= 2) || j < i < j + Capacity(c));
      if c.workers == 1 {
        LoseBehindLast(c, i, j);
      } else if j > 0 {
        RaisingMonotone(c, 1, j);
        assert SoundAndFirst(c, 0, j);
        LoseHeld(c, j);
      } else {
        LoseBehindRaising(c, FirstSound(c, i));
      }
    }
  }

  /** A sound record is lost only in a run that raises over a lost consumer. */
  lemma LossLosesAConsumer(c: Setup, steps: seq<Step>, i: nat)
    requires c.workers > 0 && EndsMissing(c, steps, i)
    ensures Run(c, steps).outcome == Raised && Run(c, steps).died > 0
  {
    var taken := EveryRunInv(c, steps);
    if Run(c, steps).outcome == Returned {
      ReturnIsComplete(c, steps);
    }
  }

  /** Among a queue's worth of records some sound one is left, if the run ended beyond it. */
  lemma SoundWithinCapacity(c: Setup, s: State, taken: nat)
    requires Inv(c, s, taken) && Sent(s) == c.workers && s.next > Capacity(c)
    ensures exists m: nat :: m < Capacity(c) && !Raises(c, m)
  {
    DoomedWithinBusy(c, s);
    AllRaise(c, Capacity(c));
    AllRaise(c, taken);
    RaisingMonotone(c, if taken < Capacity(c) then taken else Capacity(c), if taken < Capacity(c) then Capacity(c) else taken);
    assert |s.queue| == s.next - taken + Sent(s) - s.exited;
    assert !(forall m: nat :: m < Capacity(c) ==> Raises(c, m));
  }

  lemma LossWithoutConsumers(c: Setup, s: State, taken: nat, i: nat)
    requires Inv(c, s, taken) && c.workers == 0 && Missing(c, s, i)
    ensures i < Reach(c) && i < Capacity(c)
  {
    assert |s.queue| == s.next - taken + Sent(s) - s.exited;
  }

  /** A sole consumer was lost to the last record taken, and the missing one is behind it on the queue. */
  lemma LossBehindTheLast(c: Setup, s: State, taken: nat, i: nat, j: nat)
    requires Inv(c, s, taken) && c.workers == 1 && s.died > 0 && Sent(s) == 1 && Missing(c, s, i)
    requires j < taken && Raises(c, j) && Raising(c, j) == 0 && Raising(c, j + 1) == 1
    ensures SoundAndFirst(c, i, j) && j < i < j + Capacity(c)
  {
    if j + 1 < taken {
      RaisingMonotone(c, j + 1, taken - 1);
    }
    assert taken == j + 1;
    assert |s.queue| == s.next - taken + Sent(s) - s.exited;
  }

  lemma LossAmongMany(c: Setup, s: State, taken: nat, i: nat, j: nat)
    requires Inv(c, s, taken) && c.workers >= 2 && Sent(s) == c.workers && Missing(c, s, i)
    requires j < taken && Raises(c, j) && Raising(c, j) == 0
    ensures CanLose(c)
  {
    if j > 0 {
      RaisingMonotone(c, 1, j);
      assert SoundAndFirst(c, 0, j);
    } else if i < Capacity(c) {
      assert SoundAndFirst(c, i, j);
    } else {
      SoundWithinCapacity(c, s, taken);
      var m: nat :| m < Capacity(c) && !Raises(c, m);
      assert SoundAndFirst(c, m, j);
    }
  }

  lemma LossHasCause(c: Setup, steps: seq<Step>, i: nat)
    requires EndsMissing(c, steps, i)
    ensures CanLose(c)
  {
    var s := Run(c, steps);
    var taken := EveryRunInv(c, steps);
    if c.workers == 0 {
      LossWithoutConsumers(c, s, taken, i);
    } else {
      LossLosesAConsumer(c, steps, i);
      var j := FirstToRaise(c, taken);
      if c.workers == 1 {
        LossBehindTheLast(c, s, taken, i, j);
      } else {
        LossAmongMany(c, s, taken, i, j);
      }
    }
  }

  /** Some run ends without the result of a sound record it enqueued exactly when the fixture allows it. */
  lemma LosesExactly(c: Setup)
    ensures (exists steps, i: nat :: EndsMissing(c, steps, i)) <==> CanLose(c)
  {
    if steps, i: nat :| EndsMissing(c, steps, i) {
      LossHasCause(c, steps, i);
    }
    if CanLose(c) {
      LosesIfItCan(c);
    }
  }
}
