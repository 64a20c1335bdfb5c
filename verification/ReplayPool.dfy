/**
 The load-replay worker pool as interleaved steps: a producer that reads records and
 puts them on a bounded queue, then one sentinel per consumer; the consumers; and the
 gathering of the consumers, which ends the run.

 A record whose tenant cannot be hashed, or whose route is no string, raises outside
 the transport `try` and ends the consumer that took it. The gathering passes the
 exception on and the other consumers are cancelled. A record whose delay does not
 convert to a float ends the reading loop the same way, and one whose delay is infinite
 puts the producer to sleep for good. So a run returns, raises or hangs.
 Records are identified by their position among the lines that parse.
 */
module ReplayPool {
  import opened Options

  // ---- Records ----

  datatype Float = Finite(r: real) | PlusInfinity | MinusInfinity | NotANumber

  /** A value as Python's JSON reader gives it; a number literal with a dot or exponent is a float. */
  datatype Value =
    | Null
    | Bool(b: bool)
    | Int(i: int)
    | Float(f: Float)
    | Str(s: string)
    | List(items: seq<Value>)
    | Dict(fields: map<string, Value>)

  type Fields = map<string, Value>

  type Positive = r: real | r > 0.0 witness 1.0

  /** `keys` are the tenants with an API key; `readFloat` is how a string reads as a float, if it does. */
  datatype Setup = Setup(records: seq<Fields>, keys: set<string>, readFloat: string -> Option<Float>,
                         speedup: Positive, workers: nat)

  function Field(rec: Fields, name: string): Value {
    if name in rec then rec[name] else Null
  }

  predicate Truthy(v: Value) {
    match v
    case Null => false
    case Bool(b) => b
    case Int(i) => i != 0
    case Float(f) => f != Finite(0.0)
    case Str(s) => s != ""
    case List(items) => items != []
    case Dict(fields) => fields != map[]
  }

  /** The key lookup fails on an unhashable tenant; joining the URL fails on a route that is no string. */
  predicate EndsConsumer(rec: Fields, keys: set<string>) {
    var slug, route := Field(rec, "tenant_slug"), Field(rec, "route");
    && Truthy(slug)
    && (slug.List? || slug.Dict? || (slug.Str? && slug.s in keys && Truthy(route) && !route.Str?))
  }

  predicate Raises(c: Setup, i: nat) {
    i < |c.records| && EndsConsumer(c.records[i], c.keys)
  }

  // ---- Delays ----

  /** 2^1024 - 2^970, from which on a magnitude rounds beyond the largest double. */
  const FLOAT_LIMIT: int := 0xfffffffffffffc00000000000000000000000000000000000000000000000000000000000000000000000000000000000000000000000000000000000000000000000000000000000000000000000000000000000000000000000000000000000000000000000000000000000000000000000000000000000000000000000000

  /** `float(v)`; None where it raises. */
  function ToFloat(v: Value, readFloat: string -> Option<Float>): Option<Float> {
    match v
    case Bool(b) => Some(Finite(if b then 1.0 else 0.0))
    case Int(i) => if -FLOAT_LIMIT < i < FLOAT_LIMIT then Some(Finite(i as real)) else None
    case Float(f) => Some(f)
    case Str(s) => readFloat(s)
    case _ => None
  }

  /** Divided by the speedup, the wait is infinite. */
  predicate WaitsForever(f: Float, speedup: Positive) {
    f.PlusInfinity? || (f.Finite? && f.r / speedup >= FLOAT_LIMIT as real)
  }

  datatype Delay = Wakes | NeverWakes | Unreadable

  function DelayOf(c: Setup, rec: Fields): Delay {
    if "_replay_delay_s" !in rec then Wakes
    else
      var f := ToFloat(rec["_replay_delay_s"], c.readFloat);
      if f.None? then Unreadable else if WaitsForever(f.value, c.speedup) then NeverWakes else Wakes
  }

  /** The records from k on, up to the first one whose delay the producer does not get past. */
  function ReachFrom(c: Setup, k: nat): (reach: nat)
    requires k <= |c.records|
    ensures k <= reach <= |c.records|
    ensures forall i :: k <= i < reach ==> DelayOf(c, c.records[i]).Wakes?
    ensures reach < |c.records| ==> !DelayOf(c, c.records[reach]).Wakes?
    decreases |c.records| - k
  {
    if k < |c.records| && DelayOf(c, c.records[k]).Wakes? then ReachFrom(c, k + 1) else k
  }

  /** How many records the producer can put on the queue. */
  function Reach(c: Setup): nat {
    ReachFrom(c, 0)
  }

  predicate EndsUnreadable(c: Setup) {
    Reach(c) < |c.records| && DelayOf(c, c.records[Reach(c)]).Unreadable?
  }

  predicate EndsAsleep(c: Setup) {
    Reach(c) < |c.records| && DelayOf(c, c.records[Reach(c)]).NeverWakes?
  }

  // ---- Steps ----

  datatype Item = Record(index: nat) | Sentinel

  /** Head is the top of the reading loop; in Putting the producer is committed to a record. */
  datatype Phase = Head | Putting | Asleep | Signalling(sent: nat)

  datatype Outcome = Running | Returned | Raised

  /**
   `failed` is a pending exception of the reading loop. Once the run raised, the
   consumers still idle or busy are the cancelled ones.
   */
  datatype State = State(phase: Phase, failed: bool, next: nat, queue: seq<Item>,
                         idle: nat, busy: set<nat>, exited: nat, died: nat, results: seq<nat>, outcome: Outcome)

  datatype Step =
    | Commit | Put | Stop | BadDelay | Doze | Signal
    | Get | Complete(index: nat) | Raise(index: nat)
    | Return | Abort

  function Capacity(c: Setup): nat {
    if 2 * c.workers >= 8 then 2 * c.workers else 8
  }

  function Initial(c: Setup): State {
    State(Head, false, 0, [], c.workers, {}, 0, 0, [], Running)
  }

  /** Stop is the end of the fixture or of the time window, which can come at any record. */
  predicate Enabled(c: Setup, s: State, step: Step) {
    && s.outcome.Running?
    && match step
       case Commit => s.phase.Head? && s.next < |c.records| && DelayOf(c, c.records[s.next]).Wakes?
       case Put => s.phase.Putting? && |s.queue| < Capacity(c)
       case Stop => s.phase.Head?
       case BadDelay => s.phase.Head? && s.next < |c.records| && DelayOf(c, c.records[s.next]).Unreadable?
       case Doze => s.phase.Head? && s.next < |c.records| && DelayOf(c, c.records[s.next]).NeverWakes?
       case Signal => s.phase.Signalling? && s.phase.sent < c.workers && |s.queue| < Capacity(c)
       case Get => s.idle > 0 && s.queue != []
       case Complete(i) => i in s.busy && !Raises(c, i)
       case Raise(i) => i in s.busy && Raises(c, i)
       case Return => s.phase == Signalling(c.workers) && s.exited == c.workers && !s.failed
       case Abort => s.phase == Signalling(c.workers) && (s.died > 0 || (s.failed && s.exited == c.workers))
  }

  function Next(c: Setup, s: State, step: Step): State {
    if !Enabled(c, s, step) then s
    else
      match step
      case Commit => s.(phase := Putting)
      case Put => s.(phase := Head, next := s.next + 1, queue := s.queue + [Record(s.next)])
      case Stop => s.(phase := Signalling(0))
      case BadDelay => s.(phase := Signalling(0), failed := true)
      case Doze => s.(phase := Asleep)
      case Signal => s.(phase := Signalling(s.phase.sent + 1), queue := s.queue + [Sentinel])
      case Get =>
        if s.queue[0].Record? then
          s.(queue := s.queue[1..], idle := s.idle - 1, busy := s.busy + {s.queue[0].index})
        else
          s.(queue := s.queue[1..], idle := s.idle - 1, exited := s.exited + 1)
      case Complete(i) => s.(busy := s.busy - {i}, idle := s.idle + 1, results := s.results + [i])
      case Raise(i) => s.(busy := s.busy - {i}, died := s.died + 1)
      case Return => s.(outcome := Returned)
      case Abort => s.(outcome := Raised)
  }

  function Run(c: Setup, steps: seq<Step>): State {
    if steps == [] then Initial(c) else Next(c, Run(c, steps[..|steps| - 1]), steps[|steps| - 1])
  }

  /** Nothing more can happen. */
  ghost predicate Final(c: Setup, s: State) {
    forall step: Step :: !Enabled(c, s, step)
  }

  /** Nothing more can happen although the run has not ended. */
  ghost predicate Stuck(c: Setup, s: State) {
    s.outcome.Running? && Final(c, s)
  }

  /** Enqueued, would not raise, and has no result. */
  predicate Missing(c: Setup, s: State, i: nat) {
    i < s.next && !Raises(c, i) && i !in s.results
  }

  // ---- Invariant ----

  function Records(from: nat, to: nat): seq<Item>
    requires from <= to
  {
    seq(to - from, i requires 0 <= i < to - from => Record(from + i))
  }

  function Sentinels(n: nat): seq<Item> {
    seq(n, i => Sentinel)
  }

  function Sent(s: State): nat {
    if s.phase.Signalling? then s.phase.sent else 0
  }

  /** How many of the first k records raise. */
  function Raising(c: Setup, k: nat): nat {
    if k == 0 then 0 else Raising(c, k - 1) + if Raises(c, k - 1) then 1 else 0
  }

  /** The raising records a consumer is holding. */
  function Doomed(c: Setup, s: State): set<nat> {
    set i | i in s.busy && Raises(c, i)
  }

  /** `taken` records have left the queue, in order; the sentinels follow the records. */
  ghost predicate QueueInv(c: Setup, s: State, taken: nat) {
    && taken <= s.next <= Reach(c)
    && (s.phase.Putting? ==> s.next < Reach(c))
    && (s.failed ==> s.phase.Signalling? && s.next == Reach(c) && EndsUnreadable(c))
    && (s.phase.Asleep? ==> s.next == Reach(c) && EndsAsleep(c))
    && s.exited <= Sent(s) <= c.workers
    && s.queue == Records(taken, s.next) + Sentinels(Sent(s) - s.exited)
    && (s.exited > 0 ==> taken == s.next)
    && |s.queue| <= Capacity(c)
  }

  /** Every consumer is accounted for, and some consumer was left to take the last record. */
  ghost predicate CrewInv(c: Setup, s: State, taken: nat) {
    && s.idle + |s.busy| + s.exited + s.died == c.workers
    && s.died + |Doomed(c, s)| == Raising(c, taken)
    && (taken > 0 ==> Raising(c, taken - 1) < c.workers)
  }

  /** Every taken record is in flight, ended its consumer, or has exactly one result. */
  ghost predicate WorkInv(c: Setup, s: State, taken: nat) {
    && (forall i :: i in s.busy ==> i < taken && i !in s.results)
    && (forall i: nat :: i in s.results <==> i < taken && !Raises(c, i) && i !in s.busy)
    && (forall i, j :: 0 <= i < j < |s.results| ==> s.results[i] != s.results[j])
  }

  predicate OutcomeInv(c: Setup, s: State) {
    match s.outcome
    case Running => true
    case Returned => s.phase == Signalling(c.workers) && s.exited == c.workers && !s.failed
    case Raised => s.phase == Signalling(c.workers) && (s.died > 0 || (s.failed && s.exited == c.workers))
  }

  ghost predicate Inv(c: Setup, s: State, taken: nat) {
    QueueInv(c, s, taken) && CrewInv(c, s, taken) && WorkInv(c, s, taken) && OutcomeInv(c, s)
  }

  function TakenAfter(s: State, step: Step, taken: nat): nat {
    if step.Get? && s.queue != [] && s.queue[0].Record? then taken + 1 else taken
  }

  lemma QueueHead(c: Setup, s: State, taken: nat)
    requires QueueInv(c, s, taken) && s.queue != []
    ensures if taken < s.next
            then s.queue[0] == Record(taken)
                 && s.queue[1..] == Records(taken + 1, s.next) + Sentinels(Sent(s) - s.exited)
            else s.queue[0] == Sentinel && Sent(s) > s.exited
                 && s.queue[1..] == Records(taken, s.next) + Sentinels(Sent(s) - s.exited - 1)
  {
  }

  lemma GetKeepsQueueInv(c: Setup, s: State, taken: nat)
    requires QueueInv(c, s, taken) && Enabled(c, s, Get)
    ensures QueueInv(c, Next(c, s, Get), TakenAfter(s, Get, taken))
  {
    QueueHead(c, s, taken);
  }

  lemma DoomedWithinBusy(c: Setup, s: State)
    ensures |Doomed(c, s)| <= |s.busy|
  {
    SubsetSize(Doomed(c, s), s.busy);
  }

  lemma {:induction false} SubsetSize(a: set<nat>, b: set<nat>)
    requires a <= b
    ensures |a| <= |b|
  {
    if i :| i in a {
      SubsetSize(a - {i}, b - {i});
    }
  }

  /** An idle consumer bounds the number of records that raised so far. */
  lemma IdleBoundsRaising(c: Setup, s: State, taken: nat)
    requires CrewInv(c, s, taken) && s.idle > 0
    ensures Raising(c, taken) < c.workers
  {
    DoomedWithinBusy(c, s);
  }

  lemma DoomedAfterTake(c: Setup, s: State, s': State, taken: nat)
    requires taken !in s.busy && s'.busy == s.busy + {taken}
    ensures |Doomed(c, s')| == |Doomed(c, s)| + if Raises(c, taken) then 1 else 0
  {
    assert Doomed(c, s') == if Raises(c, taken) then Doomed(c, s) + {taken} else Doomed(c, s);
  }

  /** A consumer takes the next record. */
  lemma TakeRecord(c: Setup, s: State, s': State, taken: nat)
    requires CrewInv(c, s, taken) && s.idle > 0 && taken !in s.busy
    requires s'.idle == s.idle - 1 && s'.busy == s.busy + {taken}
    requires s'.exited == s.exited && s'.died == s.died
    ensures CrewInv(c, s', taken + 1)
  {
    IdleBoundsRaising(c, s, taken);
    DoomedAfterTake(c, s, s', taken);
  }

  lemma GetKeepsCrewInv(c: Setup, s: State, taken: nat)
    requires QueueInv(c, s, taken) && CrewInv(c, s, taken) && taken !in s.busy && Enabled(c, s, Get)
    ensures CrewInv(c, Next(c, s, Get), TakenAfter(s, Get, taken))
  {
    QueueHead(c, s, taken);
    if taken < s.next {
      TakeRecord(c, s, Next(c, s, Get), taken);
    } else {
      assert Doomed(c, Next(c, s, Get)) == Doomed(c, s);
    }
  }

  lemma GetKeepsWorkInv(c: Setup, s: State, taken: nat)
    requires QueueInv(c, s, taken) && WorkInv(c, s, taken) && Enabled(c, s, Get)
    ensures WorkInv(c, Next(c, s, Get), TakenAfter(s, Get, taken))
  {
    QueueHead(c, s, taken);
  }

  lemma GetKeepsInv(c: Setup, s: State, taken: nat)
    requires Inv(c, s, taken) && Enabled(c, s, Get)
    ensures Inv(c, Next(c, s, Get), TakenAfter(s, Get, taken))
  {
    GetKeepsQueueInv(c, s, taken);
    GetKeepsCrewInv(c, s, taken);
    GetKeepsWorkInv(c, s, taken);
  }

  lemma EndKeepsCrewInv(c: Setup, s: State, step: Step, taken: nat)
    requires CrewInv(c, s, taken) && (step.Complete? || step.Raise?) && Enabled(c, s, step)
    ensures CrewInv(c, Next(c, s, step), taken)
  {
    var s' := Next(c, s, step);
    if step.Raise? {
      assert Doomed(c, s) == Doomed(c, s') + {step.index};
    } else {
      assert Doomed(c, s) == Doomed(c, s');
    }
  }

  lemma EndKeepsWorkInv(c: Setup, s: State, step: Step, taken: nat)
    requires WorkInv(c, s, taken) && (step.Complete? || step.Raise?) && Enabled(c, s, step)
    ensures WorkInv(c, Next(c, s, step), taken)
  {
    if step.Complete? {
      assert forall i :: i in s.results + [step.index] <==> i in s.results || i == step.index;
    }
  }

  lemma EndKeepsInv(c: Setup, s: State, step: Step, taken: nat)
    requires Inv(c, s, taken) && (step.Complete? || step.Raise?) && Enabled(c, s, step)
    ensures Inv(c, Next(c, s, step), taken)
  {
    EndKeepsCrewInv(c, s, step, taken);
    EndKeepsWorkInv(c, s, step, taken);
  }

  lemma ProduceKeepsQueueInv(c: Setup, s: State, step: Step, taken: nat)
    requires QueueInv(c, s, taken) && !step.Get? && !step.Complete? && !step.Raise? && Enabled(c, s, step)
    ensures QueueInv(c, Next(c, s, step), taken)
  {
    if step.Put? {
      assert Records(taken, s.next) + Sentinels(0) + [Record(s.next)] == Records(taken, s.next + 1) + Sentinels(0);
    }
    if step.Signal? {
      assert Sentinels(Sent(s) - s.exited) + [Sentinel] == Sentinels(Sent(s) + 1 - s.exited);
    }
  }

  lemma ProduceKeepsInv(c: Setup, s: State, step: Step, taken: nat)
    requires Inv(c, s, taken) && !step.Get? && !step.Complete? && !step.Raise? && Enabled(c, s, step)
    ensures Inv(c, Next(c, s, step), taken)
  {
    ProduceKeepsQueueInv(c, s, step, taken);
    assert Doomed(c, Next(c, s, step)) == Doomed(c, s);
  }

  lemma {:induction false} EveryRunInv(c: Setup, steps: seq<Step>) returns (taken: nat)
    ensures Inv(c, Run(c, steps), taken)
  {
    if steps == [] {
      taken := 0;
      assert Records(0, 0) + Sentinels(0) == [];
      assert Doomed(c, Initial(c)) == {};
    } else {
      var before, step := steps[..|steps| - 1], steps[|steps| - 1];
      taken := EveryRunInv(c, before);
      var s := Run(c, before);
      if Enabled(c, s, step) {
        match step
        case Get =>
          GetKeepsInv(c, s, taken);
          taken := TakenAfter(s, step, taken);
        case Complete(_) => EndKeepsInv(c, s, step, taken);
        case Raise(_) => EndKeepsInv(c, s, step, taken);
        case _ => ProduceKeepsInv(c, s, step, taken);
      }
    }
  }

  // ---- Every record once, within bounds ----

  /**
   In every run the queue and the in-flight records stay within bounds, no record is
   replayed twice, and every result is that of an enqueued record that does not raise.
   */
  lemma EachRecordOnce(c: Setup, steps: seq<Step>)
    ensures var s := Run(c, steps);
            && |s.queue| <= Capacity(c) && |s.busy| <= c.workers && s.next <= Reach(c)
            && (forall i, j :: 0 <= i < j < |s.results| ==> s.results[i] != s.results[j])
            && (forall i :: i in s.results ==> i < s.next && !Raises(c, i))
  {
    var taken := EveryRunInv(c, steps);
  }

  lemma {:induction false} NoneRaise(c: Setup, k: nat)
    ensures Raising(c, k) == 0 <==> forall i: nat :: i < k ==> !Raises(c, i)
  {
    if k > 0 {
      NoneRaise(c, k - 1);
    }
  }

  /**
   A run that returns has lost no consumer and no record: the enqueued records are
   exactly those with a result, and none of them raises. Only with no consumers at all
   does a run return and replay nothing.
   */
  lemma ReturnIsComplete(c: Setup, steps: seq<Step>)
    requires Run(c, steps).outcome == Returned
    ensures var s := Run(c, steps);
            && s.died == 0 && !s.failed && s.busy == {}
            && (c.workers > 0 ==> forall i: nat :: (i in s.results <==> i < s.next) && (i < s.next ==> !Raises(c, i)))
            && (c.workers == 0 ==> s.results == [])
  {
    var taken := EveryRunInv(c, steps);
    var s := Run(c, steps);
    DoomedWithinBusy(c, s);
    NoneRaise(c, taken);
    assert c.workers == 0 ==> taken == 0;
    assert s.results != [] ==> s.results[0] in s.results;
  }

  /** A run raises only over a taken record that raises, or over the record whose delay ended the reading. */
  lemma RaiseHasCause(c: Setup, steps: seq<Step>)
    requires Run(c, steps).outcome == Raised
    ensures var s := Run(c, steps);
            || (exists j: nat :: j < s.next && Raises(c, j))
            || (s.next < |c.records| && DelayOf(c, c.records[s.next]).Unreadable?)
  {
    var taken := EveryRunInv(c, steps);
    NoneRaise(c, taken);
  }

  // ---- Every run ends ----

  function QueueWeight(queue: seq<Item>): nat {
    if queue == [] then 0
    else QueueWeight(queue[..|queue| - 1]) + if queue[|queue| - 1].Record? then 2 else 1
  }

  function Weight(c: Setup, s: State): int {
    4 * (Reach(c) - s.next) + QueueWeight(s.queue) + |s.busy|
    + (if s.phase.Head? then 1 else 0)
    + 2 * (c.workers - Sent(s))
    + (if s.outcome.Running? then 1 else 0)
  }

  lemma {:induction false} WeightOfTail(queue: seq<Item>)
    requires queue != []
    ensures QueueWeight(queue) == QueueWeight(queue[1..]) + if queue[0].Record? then 2 else 1
  {
    if |queue| > 1 {
      var before := queue[..|queue| - 1];
      WeightOfTail(before);
      assert queue[1..][..|queue| - 2] == before[1..];
    }
  }

  lemma GetLightens(c: Setup, s: State, taken: nat)
    requires QueueInv(c, s, taken) && Enabled(c, s, Get)
    requires forall i :: i in s.busy ==> i < taken
    ensures Weight(c, Next(c, s, Get)) < Weight(c, s)
  {
    WeightOfTail(s.queue);
    QueueHead(c, s, taken);
    if taken < s.next {
      assert taken !in s.busy;
    }
  }

  lemma AppendWeight(queue: seq<Item>, item: Item)
    ensures QueueWeight(queue + [item]) == QueueWeight(queue) + if item.Record? then 2 else 1
  {
    assert (queue + [item])[..|queue|] == queue;
  }

  /** Every step lightens the state, so no run takes more steps than the initial weight. */
  lemma EveryStepLightens(c: Setup, s: State, step: Step, taken: nat)
    requires Inv(c, s, taken) && Enabled(c, s, step)
    ensures Weight(c, Next(c, s, step)) < Weight(c, s)
  {
    match step
    case Get => GetLightens(c, s, taken);
    case Put => AppendWeight(s.queue, Record(s.next));
    case Signal => AppendWeight(s.queue, Sentinel);
    case _ =>
  }

  ghost predicate Productive(c: Setup, steps: seq<Step>) {
    forall k :: 0 <= k < |steps| ==> Enabled(c, Run(c, steps[..k]), steps[k])
  }

  lemma {:induction false} RunsAreBounded(c: Setup, steps: seq<Step>)
    requires Productive(c, steps)
    ensures |steps| + Weight(c, Run(c, steps)) <= 4 * Reach(c) + 2 * c.workers + 2
    ensures |steps| <= 4 * Reach(c) + 2 * c.workers + 2
  {
    var end := EveryRunInv(c, steps);
    WeightIsNatural(c, Run(c, steps), end);
    if steps != [] {
      var before := steps[..|steps| - 1];
      forall k | 0 <= k < |before|
        ensures Enabled(c, Run(c, before[..k]), before[k])
      {
        assert before[..k] == steps[..k];
      }
      RunsAreBounded(c, before);
      var taken := EveryRunInv(c, before);
      EveryStepLightens(c, Run(c, before), steps[|steps| - 1], taken);
    }
  }

  lemma RunSnoc(c: Setup, steps: seq<Step>, step: Step)
    ensures Run(c, steps + [step]) == Next(c, Run(c, steps), step)
  {
    assert (steps + [step])[..|steps|] == steps;
  }

  lemma RunLightens(c: Setup, before: seq<Step>, step: Step)
    requires Enabled(c, Run(c, before), step)
    ensures 0 <= Weight(c, Run(c, before + [step])) < Weight(c, Run(c, before))
    ensures Run(c, before).failed ==> Run(c, before + [step]).failed
    ensures Run(c, before).phase.Asleep? ==> Run(c, before + [step]).phase.Asleep?
  {
    RunSnoc(c, before, step);
    var taken := EveryRunInv(c, before);
    EveryStepLightens(c, Run(c, before), step, taken);
    var after := EveryRunInv(c, before + [step]);
    WeightIsNatural(c, Run(c, before + [step]), after);
  }

  lemma WeightIsNatural(c: Setup, s: State, taken: nat)
    requires QueueInv(c, s, taken)
    ensures Weight(c, s) >= 0
  {
  }

  /** Every run goes on until nothing more can happen. */
  lemma {:induction false} RunOut(c: Setup, before: seq<Step>) returns (steps: seq<Step>)
    ensures Final(c, Run(c, steps))
    ensures Run(c, before).failed ==> Run(c, steps).failed
    ensures Run(c, before).phase.Asleep? ==> Run(c, steps).phase.Asleep?
    decreases Weight(c, Run(c, before))
  {
    if step: Step :| Enabled(c, Run(c, before), step) {
      RunLightens(c, before, step);
      steps := RunOut(c, before + [step]);
    } else {
      steps := before;
    }
  }
}
