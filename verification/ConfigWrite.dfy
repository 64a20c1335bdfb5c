/**
 The PATCH handler as code, and runs of writes and reloads.

 Validation reads the loader's snapshot; the write goes to the row; a reload copies
 the row into the snapshot some time later. Between a write and the reload the
 snapshot is stale, which is what the run results are about.
 */
module ConfigWrite {
  import opened JsonValues
  import opened PodConfig
  import opened ConfigNames
  import opened Options

  const OK := 200
  const BAD_REQUEST := 400
  const SERVER_ERROR := 500

  /** A null list decodes to a nil slice, which the NOT NULL column refuses. */
  predicate NullList(c: Column, v: Json) {
    c.Field? && (c.plain.Blocklist? || c.plain.Allowlist?) && v.Null?
  }

  /** What the UPDATE reports. One that fails may still have been committed. */
  datatype DbReply = Updated | Failed(applied: bool)

  predicate Applies(reply: DbReply) {
    reply != Failed(false)
  }

  function StatusOf(c: Column, v: Json, snap: Row, reply: DbReply): int {
    if NullList(c, v) then SERVER_ERROR
    else if Validate(c, v, snap).None? then BAD_REQUEST
    else if reply.Failed? then SERVER_ERROR
    else OK
  }

  function Patched(row: Row, c: Column, v: Json, snap: Row, reply: DbReply): Row {
    if Validate(c, v, snap).Some? && Applies(reply) then row[c := Validate(c, v, snap).value] else row
  }

  class Handler {
    var row: Row
    var snapshot: Row

    constructor (row: Row)
      ensures this.row == row && snapshot == row
    {
      this.row, snapshot := row, row;
    }

    method Reload()
      modifies this`snapshot
      ensures snapshot == row
    {
      snapshot := row;
    }

    /** Runs the one-column UPDATE. */
    method Finish(c: Column, stored: Json, reply: DbReply) returns (status: int)
      modifies this`row
      ensures status == if reply.Failed? then SERVER_ERROR else OK
      ensures row == if Applies(reply) then old(row)[c := stored] else old(row)
    {
      if Applies(reply) {
        row := row[c := stored];
      }
      return if reply.Failed? then SERVER_ERROR else OK;
    }

    method ServeHTTP(kind: string, field: string, v: Json, reply: DbReply) returns (status: int)
      modifies this`row
      ensures var c := ColumnNamed(kind, field);
              if c.None? then status == BAD_REQUEST && row == old(row)
              else status == StatusOf(c.value, v, snapshot, reply)
                   && row == Patched(old(row), c.value, v, snapshot, reply)
    {
      var c := ColumnNamed(kind, field);
      if c.None? {
        return BAD_REQUEST;
      }
      match c.value
      case Field(p) => status := WritePlain(p, v, reply);
      case Level(q) => status := WriteLevel(q, v, reply);
      case Bound(q, side) => status := WriteBound(q, side, v, reply);
    }

    method WritePlain(p: Plain, v: Json, reply: DbReply) returns (status: int)
      modifies this`row
      ensures status == StatusOf(Field(p), v, snapshot, reply)
      ensures row == Patched(old(row), Field(p), v, snapshot, reply)
    {
      if NullList(Field(p), v) {
        return SERVER_ERROR;
      }
      var stored := ValidatePlain(p, v);
      if stored.None? {
        return BAD_REQUEST;
      }
      status := Finish(Field(p), stored.value, reply);
    }

    method WriteLevel(q: Quantity, v: Json, reply: DbReply) returns (status: int)
      modifies this`row
      ensures status == StatusOf(Level(q), v, snapshot, reply)
      ensures row == Patched(old(row), Level(q), v, snapshot, reply)
    {
      var lo, hi := Number(snapshot, Bound(q, Min)), Number(snapshot, Bound(q, Max));
      if IsAmount(q) {
        var r := DecodeFloat(v);
        if r.None? || r.value < lo || r.value > hi {
          return BAD_REQUEST;
        }
        status := Finish(Level(q), Num(r.value), reply);
      } else {
        var i := DecodeInt(v);
        if i.None? {
          return BAD_REQUEST;
        }
        if IsHour(q) && (i.value < 0 || i.value > 23) {
          return BAD_REQUEST;
        }
        if i.value as real < lo || i.value as real > hi {
          return BAD_REQUEST;
        }
        if IsHour(q) && i.value as real == Number(snapshot, Level(OtherHour(q))) {
          return BAD_REQUEST;
        }
        status := Finish(Level(q), Whole(CastInt32(i.value)), reply);
      }
    }

    method WriteBound(q: Quantity, side: Side, v: Json, reply: DbReply) returns (status: int)
      modifies this`row
      ensures status == StatusOf(Bound(q, side), v, snapshot, reply)
      ensures row == Patched(old(row), Bound(q, side), v, snapshot, reply)
    {
      var counterpart := Number(snapshot, Bound(q, if side.Min? then Max else Min));
      if IsAmount(q) {
        var r := DecodeFloat(v);
        if r.None? || (side.Min? && r.value >= counterpart) || (side.Max? && r.value <= counterpart) {
          return BAD_REQUEST;
        }
        status := Finish(Bound(q, side), Num(r.value), reply);
      } else {
        var i := DecodeInt(v);
        if i.None? || (side.Min? && i.value as real >= counterpart) || (side.Max? && i.value as real <= counterpart) {
          return BAD_REQUEST;
        }
        status := Finish(Bound(q, side), Whole(CastInt32(i.value)), reply);
      }
    }
  }

  // ---- Runs ----

  /** Columns whose values constrain each other. */
  datatype Pair = BoundPair(q: Quantity) | HourPair

  function PairOf(c: Column): Option<Pair> {
    match c
    case Bound(q, _) => Some(BoundPair(q))
    case Level(q) => if IsHour(q) then Some(HourPair) else None
    case Field(_) => None
  }

  predicate PairOk(row: Row, p: Pair) {
    match p
    case BoundPair(q) => Number(row, Bound(q, Min)) < Number(row, Bound(q, Max))
    case HourPair => Number(row, Level(ScheduleUpHour)) != Number(row, Level(ScheduleDownHour))
  }

  ghost predicate AllPairsOk(row: Row) {
    forall p: Pair :: PairOk(row, p)
  }

  /** `pending` holds the pairs written since the last reload. */
  datatype State = State(row: Row, snapshot: Row, pending: set<Pair>)

  datatype Step = Write(column: Column, value: Json, reply: DbReply) | Reload

  /** The step writes its column: it is validated, and the UPDATE is committed whatever it reports. */
  predicate Writes(s: State, step: Step) {
    step.Write? && Validate(step.column, step.value, s.snapshot).Some? && Applies(step.reply)
  }

  function Next(s: State, step: Step): State {
    match step
    case Reload => State(s.row, s.row, {})
    case Write(c, v, reply) =>
      s.(row := Patched(s.row, c, v, s.snapshot, reply),
         pending := if Writes(s, step) && PairOf(c).Some? then s.pending + {PairOf(c).value} else s.pending)
  }

  function Run(row: Row, steps: seq<Step>): State {
    if steps == [] then State(row, row, {})
    else Next(Run(row, steps[..|steps| - 1]), steps[|steps| - 1])
  }

  /** A reload falls between two writes to one pair, reported or not; integer bounds fit 32 bits. */
  predicate OrderlyStep(s: State, step: Step) {
    Writes(s, step) ==>
      && (PairOf(step.column).Some? ==> PairOf(step.column).value !in s.pending)
      && (step.column.Bound? && !IsAmount(step.column.of) ==> IsInt32(DecodeInt(step.value).value))
  }

  ghost predicate Orderly(row: Row, steps: seq<Step>) {
    forall k :: 0 <= k < |steps| ==> OrderlyStep(Run(row, steps[..k]), steps[k])
  }

  lemma PatchedTyped(row: Row, c: Column, v: Json, snap: Row, reply: DbReply)
    requires Typed(row) && Typed(snap)
    ensures Typed(Patched(row, c, v, snap, reply))
  {
    if c.Level? && !IsAmount(c.q) && DecodeInt(v).Some? {
      CastExactly(DecodeInt(v).value);
    }
    if c.Bound? && !IsAmount(c.of) && DecodeInt(v).Some? {
      CastExactly(DecodeInt(v).value);
    }
  }

  /** Whatever is written, row and snapshot keep their column types. */
  lemma {:induction false} EveryRunTyped(row: Row, steps: seq<Step>)
    requires Typed(row)
    ensures Typed(Run(row, steps).row) && Typed(Run(row, steps).snapshot)
  {
    if steps != [] {
      var before, step := steps[..|steps| - 1], steps[|steps| - 1];
      EveryRunTyped(row, before);
      if step.Write? {
        var s := Run(row, before);
        PatchedTyped(s.row, step.column, step.value, s.snapshot, step.reply);
      }
    }
  }

  /** In every run, orderly or not, an accepted level write stores the decoded value itself. */
  lemma LevelWritesAreExact(row: Row, steps: seq<Step>, q: Quantity, v: Json)
    requires Typed(row) && !v.Null?
    requires Validate(Level(q), v, Run(row, steps).snapshot).Some?
    ensures Validate(Level(q), v, Run(row, steps).snapshot) == Some(v)
  {
    EveryRunTyped(row, steps);
    StoredUnchangedExactly(Level(q), v, Run(row, steps).snapshot);
    assert v.Num?;
  }

  ghost predicate AgreeOn(a: Row, b: Row, p: Pair) {
    match p
    case BoundPair(q) => Number(a, Bound(q, Min)) == Number(b, Bound(q, Min))
                         && Number(a, Bound(q, Max)) == Number(b, Bound(q, Max))
    case HourPair => Number(a, Level(ScheduleUpHour)) == Number(b, Level(ScheduleUpHour))
                     && Number(a, Level(ScheduleDownHour)) == Number(b, Level(ScheduleDownHour))
  }

  ghost predicate PairInvariant(s: State) {
    && AllPairsOk(s.row)
    && (forall p: Pair :: p !in s.pending ==> AgreeOn(s.row, s.snapshot, p))
  }

  lemma OrderlyStepKeepsPairs(s: State, step: Step)
    requires Typed(s.row) && Typed(s.snapshot) && PairInvariant(s) && OrderlyStep(s, step)
    ensures PairInvariant(Next(s, step))
  {
    if Writes(s, step) {
      var c := step.column;
      if c.Level? && !IsAmount(c.q) {
        assert QuantityTyped(c.q, s.snapshot[Bound(c.q, Min)]) && QuantityTyped(c.q, s.snapshot[Bound(c.q, Max)]);
        CastExactly(DecodeInt(step.value).value);
      }
      if c.Bound? && !IsAmount(c.of) {
        CastExactly(DecodeInt(step.value).value);
      }
      forall p: Pair
        ensures PairOk(Next(s, step).row, p)
        ensures p !in Next(s, step).pending ==> AgreeOn(Next(s, step).row, s.snapshot, p)
      {
        assert PairOk(s.row, p);
        assert p !in s.pending ==> AgreeOn(s.row, s.snapshot, p);
      }
    }
  }

  /** Every orderly run keeps min < max for all ten quantities, and the two hours apart. */
  lemma {:induction false} OrderlyRunsKeepPairs(row: Row, steps: seq<Step>)
    requires Typed(row) && AllPairsOk(row) && Orderly(row, steps)
    ensures PairInvariant(Run(row, steps))
  {
    if steps != [] {
      var before, step := steps[..|steps| - 1], steps[|steps| - 1];
      forall k | 0 <= k < |before|
        ensures OrderlyStep(Run(row, before[..k]), before[k])
      {
        assert before[..k] == steps[..k];
      }
      OrderlyRunsKeepPairs(row, before);
      EveryRunTyped(row, before);
      assert OrderlyStep(Run(row, steps[..|steps| - 1]), steps[|steps| - 1]);
      OrderlyStepKeepsPairs(Run(row, before), step);
    }
  }

  /** An accepted write changes exactly its column. */
  lemma OneColumnPerWrite(s: State, step: Step, c: Column)
    requires Typed(s.row) && step.Write? && c != step.column && c in s.row
    ensures c in Next(s, step).row && Next(s, step).row[c] == s.row[c]
  {
  }

  // ---- Two writes on one snapshot ----

  /** Two writes with no reload between them. */
  function StaleWrites(c: Column, v: Json, first: DbReply, d: Column, w: Json, second: DbReply): seq<Step> {
    [Write(c, v, first), Write(d, w, second)]
  }

  lemma TwoStaleWrites(row: Row, c: Column, v: Json, first: DbReply, d: Column, w: Json, second: DbReply)
    ensures var steps := StaleWrites(c, v, first, d, w, second);
            && Run(row, steps[..0]) == State(row, row, {})
            && Run(row, steps[..1]).snapshot == row
            && Run(row, steps).row == Patched(Patched(row, c, v, row, first), d, w, row, second)
  {
    var steps := StaleWrites(c, v, first, d, w, second);
    assert steps[..1] == [steps[0]] && steps[..1][..0] == [] && steps[..|steps| - 1] == steps[..1];
  }

  /** Both writes happen on one snapshot, and the pair ends up broken. */
  ghost predicate BothBreak(row: Row, steps: seq<Step>, p: Pair)
    requires |steps| == 2
  {
    Writes(Run(row, steps[..0]), steps[0]) && Writes(Run(row, steps[..1]), steps[1]) && !PairOk(Run(row, steps).row, p)
  }

  /** A new minimum and a new maximum that fit their columns, and the pair ends up crossed. */
  ghost predicate Crosses(row: Row, q: Quantity, v: Json, first: DbReply, w: Json, second: DbReply) {
    && StoredAsGiven(Bound(q, Min), v) && StoredAsGiven(Bound(q, Max), w)
    && BothBreak(row, StaleWrites(Bound(q, Min), v, first, Bound(q, Max), w, second), BoundPair(q))
  }

  lemma CrossesMeaning(row: Row, q: Quantity, v: Json, first: DbReply, w: Json, second: DbReply)
    requires Typed(row) && StoredAsGiven(Bound(q, Min), v) && StoredAsGiven(Bound(q, Max), w)
    ensures Crosses(row, q, v, first, w, second) <==>
            && Applies(first) && Applies(second)
            && Validate(Bound(q, Min), v, row).Some? && Validate(Bound(q, Max), w, row).Some?
            && v.Num? && w.Num? && w.r <= v.r
  {
    TwoStaleWrites(row, Bound(q, Min), v, first, Bound(q, Max), w, second);
    if Validate(Bound(q, Min), v, row).Some? && Validate(Bound(q, Max), w, row).Some? {
      StoredUnchangedExactly(Bound(q, Min), v, row);
      StoredUnchangedExactly(Bound(q, Max), w, row);
    }
  }

  lemma AmountsCross(row: Row, q: Quantity, first: DbReply, second: DbReply)
    requires Typed(row) && PairOk(row, BoundPair(q)) && IsAmount(q) && Applies(first) && Applies(second)
    ensures exists v: Json, w: Json :: Crosses(row, q, v, first, w, second)
  {
    var v := Num((Number(row, Bound(q, Min)) + Number(row, Bound(q, Max))) / 2.0);
    CrossesMeaning(row, q, v, first, v, second);
  }

  lemma WideIntegersCross(row: Row, q: Quantity, first: DbReply, second: DbReply)
    requires Typed(row) && !IsAmount(q) && Applies(first) && Applies(second)
    requires Number(row, Bound(q, Max)) - Number(row, Bound(q, Min)) >= 2.0
    ensures exists v: Json, w: Json :: Crosses(row, q, v, first, w, second)
  {
    assert QuantityTyped(q, row[Bound(q, Min)]) && QuantityTyped(q, row[Bound(q, Max)]);
    var lo, hi := row[Bound(q, Min)].r.Floor, row[Bound(q, Max)].r.Floor;
    CrossesMeaning(row, q, Whole(hi - 1), first, Whole(lo + 1), second);
  }

  /** An accepted integer minimum is at least one below the maximum, and conversely. */
  lemma IntegerBoundGap(row: Row, q: Quantity, v: Json, w: Json)
    requires Typed(row) && !IsAmount(q)
    ensures v.Num? && Validate(Bound(q, Min), v, row).Some? ==> v.r <= Number(row, Bound(q, Max)) - 1.0
    ensures w.Num? && Validate(Bound(q, Max), w, row).Some? ==> w.r >= Number(row, Bound(q, Min)) + 1.0
  {
    assert QuantityTyped(q, row[Bound(q, Min)]) && QuantityTyped(q, row[Bound(q, Max)]);
    var lo, hi := row[Bound(q, Min)].r.Floor, row[Bound(q, Max)].r.Floor;
    if v.Num? && DecodeInt(v).Some? {
      IntegerStep(v.r.Floor, hi);
    }
    if w.Num? && DecodeInt(w).Some? {
      IntegerStep(lo, w.r.Floor);
    }
  }

  lemma IntegerStep(i: int, j: int)
    ensures i as real < j as real ==> i as real <= j as real - 1.0
  {
    if i < j {
      assert (j - i - 1) as real >= 0.0;
      assert j as real == i as real + (j - i - 1) as real + 1.0;
    } else {
      assert (i - j) as real >= 0.0;
      assert i as real == j as real + (i - j) as real;
    }
  }

  lemma NarrowIntegersDoNotCross(row: Row, q: Quantity, v: Json, first: DbReply, w: Json, second: DbReply)
    requires Typed(row) && !IsAmount(q)
    requires Number(row, Bound(q, Max)) - Number(row, Bound(q, Min)) < 2.0
    ensures !Crosses(row, q, v, first, w, second)
  {
    if StoredAsGiven(Bound(q, Min), v) && StoredAsGiven(Bound(q, Max), w) {
      CrossesMeaning(row, q, v, first, w, second);
      IntegerBoundGap(row, q, v, w);
    }
  }

  /**
   Two writes to the two bounds of one quantity on one snapshot can cross exactly when
   both are committed, reported or not, and the quantity is an amount or its integer
   bounds are at least two apart.
   */
  lemma StaleBoundsCrossExactly(row: Row, q: Quantity, first: DbReply, second: DbReply)
    requires Typed(row) && PairOk(row, BoundPair(q))
    ensures (exists v: Json, w: Json :: Crosses(row, q, v, first, w, second))
       <==> && Applies(first) && Applies(second)
            && (IsAmount(q) || Number(row, Bound(q, Max)) - Number(row, Bound(q, Min)) >= 2.0)
  {
    if !Applies(first) || !Applies(second) {
    } else if IsAmount(q) {
      AmountsCross(row, q, first, second);
    } else if Number(row, Bound(q, Max)) - Number(row, Bound(q, Min)) >= 2.0 {
      WideIntegersCross(row, q, first, second);
    } else {
      forall v: Json, w: Json
        ensures !Crosses(row, q, v, first, w, second)
      {
        NarrowIntegersDoNotCross(row, q, v, first, w, second);
      }
    }
  }

  /** Both hours are written on one snapshot and end up equal. */
  ghost predicate HoursCollide(row: Row, v: Json, first: DbReply, w: Json, second: DbReply) {
    BothBreak(row, StaleWrites(Level(ScheduleUpHour), v, first, Level(ScheduleDownHour), w, second), HourPair)
  }

  predicate HourAllowed(row: Row, q: Quantity, h: int) {
    Number(row, Bound(q, Min)) <= h as real <= Number(row, Bound(q, Max)) && h as real != Number(row, Level(q))
  }

  /** An hour of the day inside both hours' bounds and taken by neither. */
  predicate FreeHour(row: Row, h: int) {
    0 <= h <= 23 && HourAllowed(row, ScheduleUpHour, h) && HourAllowed(row, ScheduleDownHour, h)
  }

  lemma HoursCollideMeaning(row: Row, v: Json, first: DbReply, w: Json, second: DbReply)
    requires Typed(row)
    ensures HoursCollide(row, v, first, w, second) <==>
            && Applies(first) && Applies(second)
            && Validate(Level(ScheduleUpHour), v, row).Some? && Validate(Level(ScheduleDownHour), w, row).Some?
            && DecodeInt(v) == DecodeInt(w)
  {
    var up, down := Level(ScheduleUpHour), Level(ScheduleDownHour);
    TwoStaleWrites(row, up, v, first, down, w, second);
    if Applies(first) && Applies(second) && Validate(up, v, row).Some? && Validate(down, w, row).Some? {
      CastExactly(DecodeInt(v).value);
      CastExactly(DecodeInt(w).value);
      IntegersAsReals(DecodeInt(v).value, DecodeInt(w).value);
    }
  }

  lemma IntegersAsReals(i: int, j: int)
    ensures i as real == j as real <==> i == j
  {
    assert (i as real).Floor == i && (j as real).Floor == j;
  }

  /** Two hour writes on one snapshot can collide exactly when both are committed and an hour is free. */
  lemma StaleHoursCollideExactly(row: Row, first: DbReply, second: DbReply)
    requires Typed(row)
    ensures (exists v: Json, w: Json :: HoursCollide(row, v, first, w, second))
       <==> Applies(first) && Applies(second) && exists h: int :: FreeHour(row, h)
  {
    forall v: Json, w: Json | HoursCollide(row, v, first, w, second)
      ensures Applies(first) && Applies(second) && exists h: int :: FreeHour(row, h)
    {
      HoursCollideMeaning(row, v, first, w, second);
      assert FreeHour(row, DecodeInt(v).value);
    }
    if Applies(first) && Applies(second) && exists h: int :: FreeHour(row, h) {
      var h: int :| FreeHour(row, h);
      assert DecodeInt(Whole(h)) == Some(h);
      HoursCollideMeaning(row, Whole(h), first, Whole(h), second);
    }
  }

  // ---- Integer bounds outside 32 bits ----

  /** The value is on its side of the counterpart. */
  predicate OnItsSide(row: Row, q: Quantity, side: Side, i: int) {
    if side.Min? then i as real < Number(row, Bound(q, Max)) else i as real > Number(row, Bound(q, Min))
  }

  /** An accepted integer bound keeps its pair exactly when its 32-bit cast is still on its side. */
  lemma WrappedBoundKeepsPairExactly(row: Row, q: Quantity, side: Side, v: Json)
    requires Typed(row) && !IsAmount(q) && Validate(Bound(q, side), v, row).Some?
    ensures PairOk(Next(State(row, row, {}), Write(Bound(q, side), v, Updated)).row, BoundPair(q))
       <==> OnItsSide(row, q, side, CastInt32(DecodeInt(v).value))
    ensures IsInt32(DecodeInt(v).value) ==> OnItsSide(row, q, side, CastInt32(DecodeInt(v).value))
  {
    CastExactly(DecodeInt(v).value);
  }

  /** One beyond the range, on either side, wraps to the far end and breaks every pair. */
  lemma WrappedBoundBreaksPair(row: Row, q: Quantity, side: Side)
    requires Typed(row) && !IsAmount(q)
    ensures var step := Write(Bound(q, side), Whole(if side.Min? then -0x8000_0001 else 0x8000_0000), Updated);
            Writes(State(row, row, {}), step)
            && !PairOk(Next(State(row, row, {}), step).row, BoundPair(q))
  {
    assert QuantityTyped(q, row[Bound(q, Min)]) && QuantityTyped(q, row[Bound(q, Max)]);
    assert CastInt32(-0x8000_0001) == 0x7FFF_FFFF && CastInt32(0x8000_0000) == -0x8000_0000;
    var i := if side.Min? then -0x8000_0001 else 0x8000_0000;
    assert DecodeInt(Whole(i)) == Some(i);
    WrappedBoundKeepsPairExactly(row, q, side, Whole(i));
  }
}
