/**
 What single records and delays do to the load-replay pool, spelled out value by value,
 and the smallest fixtures that return, raise, lose a record or hang.
 */
module ReplayFixtures {
  import opened Options
  import opened ReplayPool
  import opened ReplayFaults
  import opened ReplayLosses

  // ---- Delays ----

  /** 54 one bits and 970 zeros. */
  lemma FloatLimitSpelledOut()
    ensures FLOAT_LIMIT
         == 0xfffffffffffffc00000000000000000000000000000000000000000000000000000000000000000000000000000000000000000000000000000000000000000000000000000000000000000000000000000000000000000000000000000000000000000000000000000000000000000000000000000000000000000000000000
  {
  }

  lemma WaitsForeverExactly(r: real, speedup: Positive)
    ensures WaitsForever(Finite(r), speedup) <==> r >= FLOAT_LIMIT as real * speedup
  {
    var q := r / speedup;
    assert r == q * speedup;
    if q >= FLOAT_LIMIT as real {
      assert (q - FLOAT_LIMIT as real) * speedup >= 0.0;
    } else {
      assert (FLOAT_LIMIT as real - q) * speedup > 0.0;
    }
  }

  /** A finite delay is slept through exactly when, divided by the speedup, it stays below the limit of the doubles. */
  lemma FiniteDelaysWakeExactly(c: Setup, r: real)
    ensures DelayOf(c, Delayed(Float(Finite(r)))).Wakes? <==>
            r < 0xfffffffffffffc00000000000000000000000000000000000000000000000000000000000000000000000000000000000000000000000000000000000000000000000000000000000000000000000000000000000000000000000000000000000000000000000000000000000000000000000000000000000000000000000000 as real * c.speedup
    ensures !DelayOf(c, Delayed(Float(Finite(r)))).Unreadable?
  {
    WaitsForeverExactly(r, c.speedup);
    FloatLimitSpelledOut();
  }

  /** An integer delay has to be a double besides. */
  lemma IntegerDelaysExactly(c: Setup, i: int)
    ensures DelayOf(c, Delayed(Int(i))).Unreadable? <==>
            (if i < 0 then -i else i)
            >= 0xfffffffffffffc00000000000000000000000000000000000000000000000000000000000000000000000000000000000000000000000000000000000000000000000000000000000000000000000000000000000000000000000000000000000000000000000000000000000000000000000000000000000000000000000000
    ensures !DelayOf(c, Delayed(Int(i))).Unreadable? ==>
              (DelayOf(c, Delayed(Int(i))).Wakes? <==> DelayOf(c, Delayed(Float(Finite(i as real)))).Wakes?)
  {
    FloatLimitSpelledOut();
  }

  /** The other values: true counts as one second, false as none; NaN and minus infinity are no wait. */
  lemma OtherDelaysExactly(c: Setup, v: Value)
    ensures v == Bool(true) ==> DelayOf(c, Delayed(v)) == DelayOf(c, Delayed(Float(Finite(1.0))))
    ensures v in {Bool(false), Float(NotANumber), Float(MinusInfinity)} ==> DelayOf(c, Delayed(v)).Wakes?
    ensures v == Float(PlusInfinity) ==> DelayOf(c, Delayed(v)).NeverWakes?
    ensures v.Null? || v.List? || v.Dict? ==> DelayOf(c, Delayed(v)).Unreadable?
    ensures v.Str? ==>
              DelayOf(c, Delayed(v)) ==
              if c.readFloat(v.s).Some? then DelayOf(c, Delayed(Float(c.readFloat(v.s).value))) else Unreadable
    ensures DelayOf(c, SOUND).Wakes?
  {
    if v == Bool(false) {
      FiniteDelaysWakeExactly(c, 0.0);
      assert DelayOf(c, Delayed(v)) == DelayOf(c, Delayed(Float(Finite(0.0))));
      ProductIsPositive(c.speedup);
    }
  }

  lemma ProductIsPositive(speedup: Positive)
    ensures 0.0 < 0xfffffffffffffc00000000000000000000000000000000000000000000000000000000000000000000000000000000000000000000000000000000000000000000000000000000000000000000000000000000000000000000000000000000000000000000000000000000000000000000000000000000000000000000000000 as real * speedup
  {
  }

  // ---- What ends a consumer ----

  function Routed(slug: Value, route: Value): Fields {
    map["tenant_slug" := slug, "route" := route]
  }

  /** With a tenant that has a key, exactly the routes that are no string and not empty, zero, false or null. */
  lemma RoutesThatEndAConsumer(s: string, route: Value, keys: set<string>)
    requires s != "" && s in keys
    ensures EndsConsumer(Routed(Str(s), route), keys) <==>
            match route
            case Null => false
            case Bool(b) => b
            case Int(i) => i < 0 || i > 0
            case Float(f) => !f.Finite? || f.r < 0.0 || f.r > 0.0
            case Str(_) => false
            case List(items) => |items| > 0
            case Dict(fields) => fields != map[]
  {
  }

  /** With any other tenant, exactly the lists and objects that are not empty; the route does not matter. */
  lemma TenantsThatEndAConsumer(slug: Value, route: Value, keys: set<string>)
    requires slug.Str? ==> slug.s == "" || slug.s !in keys
    ensures EndsConsumer(Routed(slug, route), keys) <==>
            (slug.List? && |slug.items| > 0) || (slug.Dict? && slug.fields != map[])
  {
  }

  // ---- The queue ----

  /** A put waits exactly while the queue holds eight items and twice as many as there are consumers. */
  lemma PutsExactly(c: Setup, s: State)
    requires s.outcome.Running? && s.phase.Putting?
    ensures Enabled(c, s, Put) <==> |s.queue| < 8 || |s.queue| < 2 * c.workers
  {
  }

  // ---- Fixtures ----

  const SOUND: Fields := map["tenant_slug" := Str("ifix"), "route" := Str("/v1/embeddings")]
  const BAD_ROUTE: Fields := map["tenant_slug" := Str("ifix"), "route" := Int(5)]

  function Delayed(v: Value): Fields {
    map["tenant_slug" := Str("ifix"), "route" := Str("/v1/embeddings"), "_replay_delay_s" := v]
  }

  /** One record, then n sound ones. */
  function Before(first: Fields, n: nat, readFloat: string -> Option<Float>, speedup: Positive, workers: nat): Setup {
    Setup([first] + seq(n, i => SOUND), {"ifix"}, readFloat, speedup, workers)
  }

  lemma SoundTail(first: Fields, n: nat, readFloat: string -> Option<Float>, speedup: Positive, workers: nat)
    ensures var c := Before(first, n, readFloat, speedup, workers);
            && |c.records| == n + 1 && c.records[0] == first
            && (forall i: nat :: 0 < i < |c.records| ==> !Raises(c, i) && DelayOf(c, c.records[i]).Wakes?)
  {
    var c := Before(first, n, readFloat, speedup, workers);
    assert !EndsConsumer(SOUND, c.keys) && DelayOf(c, SOUND).Wakes?;
    assert forall i :: 0 < i < |c.records| ==> c.records[i] == SOUND;
  }

  lemma OneBadRouteShape(n: nat, readFloat: string -> Option<Float>, speedup: Positive, workers: nat)
    ensures var c := Before(BAD_ROUTE, n, readFloat, speedup, workers);
            && Reach(c) == n + 1 && Raises(c, 0) && Raising(c, 1) == 1
            && (forall i: nat :: 0 < i < |c.records| ==> !Raises(c, i))
  {
    var c := Before(BAD_ROUTE, n, readFloat, speedup, workers);
    SoundTail(BAD_ROUTE, n, readFloat, speedup, workers);
    assert EndsConsumer(BAD_ROUTE, c.keys) && DelayOf(c, BAD_ROUTE).Wakes?;
    assert Raising(c, 1) == Raising(c, 0) + 1;
  }

  /** With any consumers, one bad route followed by one sound record can cost the sound one its result. */
  lemma OneBadRouteLoses(readFloat: string -> Option<Float>, speedup: Positive, workers: nat)
    requires workers > 0
    ensures exists steps, i: nat :: EndsMissing(Before(BAD_ROUTE, 1, readFloat, speedup, workers), steps, i)
  {
    var c := Before(BAD_ROUTE, 1, readFloat, speedup, workers);
    OneBadRouteShape(1, readFloat, speedup, workers);
    assert SoundAndFirst(c, 1, 0);
    LosesExactly(c);
  }

  /** With one consumer, one bad route hangs the pool exactly when eight or more records follow it. */
  lemma OneBadRouteHangsExactly(n: nat, readFloat: string -> Option<Float>, speedup: Positive)
    ensures CanHang(Before(BAD_ROUTE, n, readFloat, speedup, 1)) <==> n >= 8
  {
    var c := Before(BAD_ROUTE, n, readFloat, speedup, 1);
    OneBadRouteShape(n, readFloat, speedup, 1);
    assert Raising(c, 0) == 0;
    if n >= 8 {
      assert Blocks(c, 1);
    }
  }

  /** With one consumer, one bad route followed by eight or more sound records hangs in every schedule. */
  lemma OneBadRouteHangs(n: nat, readFloat: string -> Option<Float>, speedup: Positive, steps: seq<Step>)
    requires n >= 8 && ReadsToEnd(Before(BAD_ROUTE, n, readFloat, speedup, 1), steps)
    ensures Run(Before(BAD_ROUTE, n, readFloat, speedup, 1), steps).outcome.Running?
  {
    OneBadRouteShape(n, readFloat, speedup, 1);
    BlockedNeverEnds(Before(BAD_ROUTE, n, readFloat, speedup, 1), 1, steps);
  }

  /** An infinite delay on an otherwise sound record hangs in every schedule, with any consumers. */
  lemma OneInfiniteDelayHangs(
      n: nat, readFloat: string -> Option<Float>, speedup: Positive, workers: nat, steps: seq<Step>)
    requires ReadsToEnd(Before(Delayed(Float(PlusInfinity)), n, readFloat, speedup, workers), steps)
    ensures Run(Before(Delayed(Float(PlusInfinity)), n, readFloat, speedup, workers), steps).outcome.Running?
  {
    var c := Before(Delayed(Float(PlusInfinity)), n, readFloat, speedup, workers);
    assert c.records[0] == Delayed(Float(PlusInfinity)) && DelayOf(c, c.records[0]).NeverWakes?;
    AsleepNeverEnds(c, steps);
  }

  /** An integer delay beyond the doubles can raise, with any consumers. */
  lemma OneHugeDelayRaises(n: nat, readFloat: string -> Option<Float>, speedup: Positive, workers: nat)
    ensures exists steps :: Run(Before(Delayed(Int(FLOAT_LIMIT)), n, readFloat, speedup, workers), steps).outcome == Raised
  {
    var c := Before(Delayed(Int(FLOAT_LIMIT)), n, readFloat, speedup, workers);
    assert c.records[0] == Delayed(Int(FLOAT_LIMIT)) && DelayOf(c, c.records[0]).Unreadable?;
    RaisesExactly(c);
  }

  /**
   A finite delay below the limit does no harm: with any consumers every finished run
   returns with every enqueued record answered, and read to its end the fixture is
   answered record by record.
   */
  lemma FiniteDelayReturns(
      r: real, n: nat, readFloat: string -> Option<Float>, speedup: Positive, workers: nat, steps: seq<Step>)
    requires r < 0xfffffffffffffc00000000000000000000000000000000000000000000000000000000000000000000000000000000000000000000000000000000000000000000000000000000000000000000000000000000000000000000000000000000000000000000000000000000000000000000000000000000000000000000000000 as real * speedup
    requires workers > 0
    requires Final(Before(Delayed(Float(Finite(r))), n, readFloat, speedup, workers),
                   Run(Before(Delayed(Float(Finite(r))), n, readFloat, speedup, workers), steps))
    ensures var c := Before(Delayed(Float(Finite(r))), n, readFloat, speedup, workers);
            var s := Run(c, steps);
            && s.outcome == Returned
            && (forall i: nat :: i in s.results <==> i < s.next)
            && (ReadsToEnd(c, steps) ==> forall i: nat :: i in s.results <==> i < n + 1)
  {
    var first := Delayed(Float(Finite(r)));
    var c := Before(first, n, readFloat, speedup, workers);
    SoundTail(first, n, readFloat, speedup, workers);
    FiniteDelaysWakeExactly(c, r);
    assert !EndsConsumer(first, c.keys);
    SoundFixturesReturn(c, steps);
    ReturnIsComplete(c, steps);
    if ReadsToEnd(c, steps) {
      var taken := EveryRunInv(c, steps);
      SignalsAfterReach(c, steps);
      assert Reach(c) == n + 1;
    }
  }
}
