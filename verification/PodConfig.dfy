/**
 The pod configuration row and the two validators in front of it: the gateway's
 PATCH handler and the dashboard's server action.

 The row has 36 columns: 6 plain fields, 10 bounded quantities, and a lower and an
 upper bound for each quantity. A value is the JSON the row is read back as.
 */
module PodConfig {
  import opened JsonValues
  import opened Options

  datatype Quantity =
    | CapPrimary | CapFallback | ColdstartBudget | PortBindBudget | FailureCooldown
    | MonthlyBudget | ScheduleUpHour | ScheduleDownHour | GraceRampDown | ProvisionLead

  datatype Plain = Blocklist | Allowlist | HostId | RejectPrivateIp | ScheduleDays | ScheduleDisabled

  datatype Side = Min | Max

  datatype Column = Field(plain: Plain) | Level(q: Quantity) | Bound(of: Quantity, side: Side)

  /** Amounts are NUMERIC columns; the other quantities are 32-bit integers. */
  predicate IsAmount(q: Quantity) {
    q.CapPrimary? || q.CapFallback? || q.MonthlyBudget?
  }

  type Row = map<Column, Json>

  predicate IsInt32(i: int) {
    -0x8000_0000 <= i < 0x8000_0000
  }

  predicate IsInt64(i: int) {
    -0x8000_0000_0000_0000 <= i < 0x8000_0000_0000_0000
  }

  /** Go's conversion of an int to an int32. */
  function CastInt32(i: int): int {
    (i + 0x8000_0000) % 0x1_0000_0000 - 0x8000_0000
  }

  predicate IsWhole(r: real) {
    r.Floor as real == r
  }

  predicate QuantityTyped(q: Quantity, v: Json) {
    v.Num? && (IsAmount(q) || (IsWhole(v.r) && IsInt32(v.r.Floor)))
  }

  /** Every quantity and bound column holds a number of its type. */
  ghost predicate Typed(row: Row) {
    && (forall q: Quantity :: Level(q) in row && QuantityTyped(q, row[Level(q)]))
    && (forall q: Quantity, s: Side :: Bound(q, s) in row && QuantityTyped(q, row[Bound(q, s)]))
    && (forall p: Plain :: Field(p) in row)
  }

  function Number(row: Row, c: Column): real
  {
    if c in row && row[c].Num? then row[c].r else 0.0
  }

  // ---- Decoding, as the gateway does it ----

  function DecodeFloat(v: Json): Option<real> {
    match v
    case Null => Some(0.0)
    case Num(r) => Some(r)
    case _ => None
  }

  function DecodeInt(v: Json): Option<int> {
    match v
    case Null => Some(0)
    case Num(r) => if IsWhole(r) && IsInt64(r.Floor) then Some(r.Floor) else None
    case _ => None
  }

  function DecodeBool(v: Json): Option<bool> {
    match v
    case Null => Some(false)
    case Bool(b) => Some(b)
    case _ => None
  }

  function DecodeInts(items: seq<Json>): Option<seq<int>> {
    if items == [] then Some([])
    else
      var before, last := DecodeInts(items[..|items| - 1]), DecodeInt(items[|items| - 1]);
      if before.Some? && last.Some? then Some(before.value + [last.value]) else None
  }

  function DecodeStrings(items: seq<Json>): Option<seq<string>> {
    if items == [] then Some([])
    else
      var before, last := DecodeStrings(items[..|items| - 1]), items[|items| - 1];
      if before.None? then None
      else
        match last
        case Null => Some(before.value + [""])
        case Str(s) => Some(before.value + [s])
        case _ => None
  }

  predicate IsDay(s: string) {
    s in {"sun", "mon", "tue", "wed", "thu", "fri", "sat"}
  }

  function Whole(i: int): Json {
    Num(i as real)
  }

  // ---- The gateway's verdict: the value the column gets, or None ----

  function ValidatePlain(p: Plain, v: Json): Option<Json> {
    match p
    case HostId =>
      var i := DecodeInt(v);
      if i.Some? && i.value >= 0 then Some(Whole(i.value)) else None
    case RejectPrivateIp =>
      var b := DecodeBool(v);
      if b.Some? then Some(Bool(b.value)) else None
    case ScheduleDisabled =>
      var b := DecodeBool(v);
      if b.Some? then Some(Bool(b.value)) else None
    case ScheduleDays =>
      var days := if v.Arr? then DecodeStrings(v.items) else None;
      if days.Some? && days.value != [] && (forall d :: d in days.value ==> IsDay(d))
      then Some(Arr(seq(|days.value|, i requires 0 <= i < |days.value| => Str(days.value[i])))) else None
    case _ =>
      var ids := if v.Arr? then DecodeInts(v.items) else None;
      if ids.Some? then Some(Arr(seq(|ids.value|, i requires 0 <= i < |ids.value| => Whole(ids.value[i])))) else None
  }

  function OtherHour(q: Quantity): Quantity {
    if q.ScheduleUpHour? then ScheduleDownHour else ScheduleUpHour
  }

  predicate IsHour(q: Quantity) {
    q.ScheduleUpHour? || q.ScheduleDownHour?
  }

  function ValidateLevel(q: Quantity, v: Json, snap: Row): Option<Json> {
    var lo, hi := Number(snap, Bound(q, Min)), Number(snap, Bound(q, Max));
    if IsAmount(q) then
      var r := DecodeFloat(v);
      if r.Some? && lo <= r.value <= hi then Some(Num(r.value)) else None
    else
      var i := DecodeInt(v);
      if i.Some? && lo <= i.value as real <= hi
         && (IsHour(q) ==> 0 <= i.value <= 23 && i.value as real != Number(snap, Level(OtherHour(q))))
      then Some(Whole(CastInt32(i.value))) else None
  }

  function ValidateBound(q: Quantity, side: Side, v: Json, snap: Row): Option<Json> {
    var lo, hi := Number(snap, Bound(q, Min)), Number(snap, Bound(q, Max));
    if IsAmount(q) then
      var r := DecodeFloat(v);
      if r.Some? && (if side.Min? then r.value < hi else r.value > lo) then Some(Num(r.value)) else None
    else
      var i := DecodeInt(v);
      if i.Some? && (if side.Min? then i.value as real < hi else i.value as real > lo)
      then Some(Whole(CastInt32(i.value))) else None
  }

  function Validate(c: Column, v: Json, snap: Row): Option<Json> {
    match c
    case Field(p) => ValidatePlain(p, v)
    case Level(q) => ValidateLevel(q, v, snap)
    case Bound(q, side) => ValidateBound(q, side, v, snap)
  }

  // ---- The dashboard's verdict ----

  predicate DashboardAccepts(c: Column, v: Json, current: Row) {
    match c
    case Field(_) => true
    case Level(q) =>
      && v.Num?
      && Number(current, Bound(q, Min)) <= v.r <= Number(current, Bound(q, Max))
      && (IsHour(q) ==> 0.0 <= v.r <= 23.0 && v.r != Number(current, Level(OtherHour(q))))
    case Bound(q, side) =>
      && v.Num?
      && (if side.Min? then v.r < Number(current, Bound(q, Max)) else v.r > Number(current, Bound(q, Min)))
  }

  predicate IsInteger(v: Json) {
    v.Num? && IsWhole(v.r) && IsInt64(v.r.Floor)
  }

  /** The JSON a plain field takes; a null inside a list of ids passes as 0. */
  predicate PlainShape(p: Plain, v: Json) {
    match p
    case HostId => v.Null? || (IsInteger(v) && v.r >= 0.0)
    case RejectPrivateIp => v.Null? || v.Bool?
    case ScheduleDisabled => v.Null? || v.Bool?
    case ScheduleDays => v.Arr? && v.items != [] && forall x :: x in v.items ==> IsDayName(x)
    case _ => v.Arr? && forall x :: x in v.items ==> x.Null? || IsInteger(x)
  }

  lemma {:induction false} IntsDecodeIff(items: seq<Json>)
    ensures DecodeInts(items).Some? <==> forall x :: x in items ==> x.Null? || IsInteger(x)
  {
    if items != [] {
      IntsDecodeIff(items[..|items| - 1]);
      assert items == items[..|items| - 1] + [items[|items| - 1]];
    }
  }

  predicate IsDayName(x: Json) {
    x.Str? && IsDay(x.s)
  }

  lemma {:induction false} DecodedDaysAreNames(items: seq<Json>)
    requires DecodeStrings(items).Some? && forall d :: d in DecodeStrings(items).value ==> IsDay(d)
    ensures forall x :: x in items ==> IsDayName(x)
  {
    DecodedStrings(items);
    var days := DecodeStrings(items).value;
    forall i | 0 <= i < |items| ensures IsDayName(items[i]) {
      assert IsDay(days[i]);
    }
  }

  lemma {:induction false} NamesDecode(items: seq<Json>)
    requires forall x :: x in items ==> IsDayName(x)
    ensures DecodeStrings(items).Some?
  {
    if items != [] {
      NamesDecode(items[..|items| - 1]);
      assert IsDayName(items[|items| - 1]);
    }
  }

  lemma DaysDecodeIff(items: seq<Json>)
    ensures (DecodeStrings(items).Some? && forall d :: d in DecodeStrings(items).value ==> IsDay(d))
       <==> forall x :: x in items ==> IsDayName(x)
  {
    if forall x :: x in items ==> IsDayName(x) {
      NamesDecode(items);
      DecodedStrings(items);
      var days := DecodeStrings(items).value;
      forall i | 0 <= i < |days| ensures IsDay(days[i]) {
        assert IsDayName(items[i]);
      }
    } else if DecodeStrings(items).Some? && forall d :: d in DecodeStrings(items).value ==> IsDay(d) {
      DecodedDaysAreNames(items);
    }
  }

  /** A plain field accepts exactly the values of its shape. */
  lemma PlainAcceptsExactly(p: Plain, v: Json)
    ensures ValidatePlain(p, v).Some? <==> PlainShape(p, v)
  {
    if v.Arr? {
      IntsDecodeIff(v.items);
      DaysDecodeIff(v.items);
      if DecodeStrings(v.items).Some? {
        DecodedStrings(v.items);
      }
    }
  }

  /** What only the gateway checks: that the value decodes to the column's Go type. */
  predicate GoTyped(c: Column, v: Json) {
    match c
    case Field(p) => PlainShape(p, v)
    case Level(q) => if IsAmount(q) then v.Num? else IsInteger(v)
    case Bound(q, _) => if IsAmount(q) then v.Num? else IsInteger(v)
  }

  /**
   On one snapshot the gateway accepts a non-null value exactly when the dashboard
   does and the value decodes to the column's type.
   */
  lemma GatewayIsDashboardPlusTyping(c: Column, v: Json, snap: Row)
    requires !v.Null?
    ensures Validate(c, v, snap).Some? <==> DashboardAccepts(c, v, snap) && GoTyped(c, v)
  {
    match c
    case Field(p) => PlainAcceptsExactly(p, v);
    case Level(q) =>
      if v.Num? && IsWhole(v.r) {
        assert v.r.Floor as real == v.r;
      }
    case Bound(_, _) =>
  }

  /** The one value on which the dashboard is the stricter of the two: null, on a numeric column. */
  lemma DashboardStricterOnlyOnNull(c: Column, v: Json, snap: Row)
    ensures Validate(c, v, snap).Some? && !DashboardAccepts(c, v, snap)
       <==> Validate(c, v, snap).Some? && v.Null? && !c.Field?
  {
    if !v.Null? {
      GatewayIsDashboardPlusTyping(c, v, snap);
    }
  }

  // ---- What gets stored ----

  lemma CastExactly(i: int)
    ensures IsInt32(CastInt32(i))
    ensures CastInt32(i) == i <==> IsInt32(i)
  {
  }

  predicate NoNull(v: Json) {
    !v.Null? && (v.Arr? ==> forall x :: x in v.items ==> !x.Null?)
  }

  /** The values a column stores unchanged. */
  predicate StoredAsGiven(c: Column, v: Json) {
    NoNull(v) && (c.Bound? && !IsAmount(c.of) && v.Num? ==> IsInt32(v.r.Floor))
  }

  lemma {:induction false} DecodedInts(items: seq<Json>)
    requires DecodeInts(items).Some?
    ensures var ids := DecodeInts(items).value;
            |ids| == |items| && forall i :: 0 <= i < |items| ==> DecodeInt(items[i]) == Some(ids[i])
  {
    if items != [] {
      DecodedInts(items[..|items| - 1]);
    }
  }

  lemma {:induction false} DecodedStrings(items: seq<Json>)
    requires DecodeStrings(items).Some?
    ensures var ss := DecodeStrings(items).value;
            |ss| == |items|
            && forall i :: 0 <= i < |items| ==> items[i] == Str(ss[i]) || (items[i].Null? && ss[i] == "")
  {
    if items != [] {
      DecodedStrings(items[..|items| - 1]);
    }
  }

  /**
   An accepted value is stored unchanged exactly when it holds no null and, on an
   integer bound, fits 32 bits. Level writes need no such range: their bounds are
   32-bit themselves.
   */
  lemma StoredUnchangedExactly(c: Column, v: Json, snap: Row)
    requires Typed(snap) && Validate(c, v, snap).Some?
    ensures Validate(c, v, snap) == Some(v) <==> StoredAsGiven(c, v)
  {
    match c
    case Field(p) => PlainStoredExactly(p, v);
    case Level(q) =>
      if !IsAmount(q) {
        assert QuantityTyped(q, snap[Bound(q, Min)]) && QuantityTyped(q, snap[Bound(q, Max)]);
        CastExactly(DecodeInt(v).value);
      }
    case Bound(q, side) =>
      if !IsAmount(q) {
        CastExactly(DecodeInt(v).value);
      }
  }

  lemma PlainStoredExactly(p: Plain, v: Json)
    requires ValidatePlain(p, v).Some?
    ensures ValidatePlain(p, v) == Some(v) <==> NoNull(v)
  {
    match p
    case ScheduleDays =>
      DecodedStrings(v.items);
      var days := DecodeStrings(v.items).value;
      forall i | 0 <= i < |days|
        ensures v.items[i] == Str(days[i])
      {
        assert days[i] in days && IsDay(days[i]);
      }
      assert ValidatePlain(p, v).value.items == v.items;
    case Blocklist => ListStoredExactly(v);
    case Allowlist => ListStoredExactly(v);
    case _ =>
  }

  lemma ListStoredExactly(v: Json)
    requires v.Arr? && DecodeInts(v.items).Some?
    ensures ValidatePlain(Blocklist, v).Some?
    ensures ValidatePlain(Blocklist, v) == Some(v) <==> NoNull(v)
  {
    DecodedInts(v.items);
    var ids := DecodeInts(v.items).value;
    var stored := ValidatePlain(Blocklist, v).value;
    assert stored.Arr? && |stored.items| == |v.items|;
    forall i | 0 <= i < |v.items|
      ensures stored.items[i] == v.items[i] <==> !v.items[i].Null?
    {
      assert stored.items[i] == Whole(ids[i]);
      assert DecodeInt(v.items[i]) == Some(ids[i]);
    }
    if stored == v {
      forall x | x in v.items
        ensures !x.Null?
      {
        var i :| 0 <= i < |v.items| && v.items[i] == x;
        assert stored.items[i] == v.items[i];
      }
    }
    if NoNull(v) {
      forall i | 0 <= i < |v.items|
        ensures stored.items[i] == v.items[i]
      {
        assert v.items[i] in v.items;
      }
      assert stored.items == v.items;
    }
  }
}
