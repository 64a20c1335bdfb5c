/**
 The PATCH request as its caller sees it: which kind, field name and JSON value are
 answered with which status, name by name, independently of how columns are modelled.
 */
module ConfigRequests {
  import opened JsonValues
  import opened PodConfig
  import opened ConfigNames
  import opened ConfigWrite
  import opened Options

  // ---- The fields by name ----

  predicate AmountName(s: string) {
    s in ["cap_primary", "cap_fallback", "monthly_budget_brl"]
  }

  predicate HourName(s: string) {
    s in ["schedule_up_hour", "schedule_down_hour"]
  }

  predicate SecondsName(s: string) {
    s in ["coldstart_budget_s", "port_bind_budget_s", "failure_cooldown_s", "grace_ramp_down_s", "provision_lead_s"]
  }

  predicate ListName(s: string) {
    s in ["blocklist", "allowlist"]
  }

  predicate SwitchName(s: string) {
    s in ["reject_private_ip", "schedule_disabled"]
  }

  // ---- The values ----

  predicate Integer(v: Json) {
    v.Num? && v.r.Floor as real == v.r && -9_223_372_036_854_775_808 <= v.r.Floor <= 9_223_372_036_854_775_807
  }

  /** A null counts as 0. */
  function Value(v: Json): real {
    if v.Num? then v.r else 0.0
  }

  predicate NumberFor(name: string, v: Json) {
    v.Null? || (if AmountName(name) then v.Num? else Integer(v))
  }

  /** The number the snapshot holds under a name. */
  function At(snap: Row, kind: string, name: string): real {
    var c := ColumnNamed(kind, name);
    if c.Some? then Number(snap, c.value) else 0.0
  }

  predicate Between(snap: Row, name: string, v: Json) {
    At(snap, "bound", name + "_min") <= Value(v) <= At(snap, "bound", name + "_max")
  }

  predicate AcceptableConfig(name: string, v: Json, snap: Row) {
    if AmountName(name) || SecondsName(name) then NumberFor(name, v) && Between(snap, name, v)
    else if HourName(name) then
      && NumberFor(name, v) && 0.0 <= Value(v) <= 23.0 && Between(snap, name, v)
      && Value(v) != At(snap, "config", if name == "schedule_up_hour" then "schedule_down_hour" else "schedule_up_hour")
    else if ListName(name) then v.Arr? && forall x :: x in v.items ==> x.Null? || Integer(x)
    else if name == "host_id" then v.Null? || (Integer(v) && v.r >= 0.0)
    else if SwitchName(name) then v.Null? || v.Bool?
    else
      && name == "schedule_days" && v.Arr? && |v.items| > 0
      && forall x :: x in v.items ==> x.Str? && x.s in ["sun", "mon", "tue", "wed", "thu", "fri", "sat"]
  }

  /** `name` is the bounded quantity, without the suffix. */
  predicate AcceptableBound(name: string, lower: bool, v: Json, snap: Row) {
    && (AmountName(name) || SecondsName(name) || HourName(name))
    && NumberFor(name, v)
    && (if lower then Value(v) < At(snap, "bound", name + "_max") else Value(v) > At(snap, "bound", name + "_min"))
  }

  ghost predicate Acceptable(kind: string, field: string, v: Json, snap: Row) {
    || (kind == "config" && AcceptableConfig(field, v, snap))
    || (kind == "bound" && exists name: string ::
          || (field == name + "_min" && AcceptableBound(name, true, v, snap))
          || (field == name + "_max" && AcceptableBound(name, false, v, snap)))
  }

  // ---- The names and the columns ----

  lemma QuantityKinds(q: Quantity)
    ensures AmountName(QuantityName(q)) <==> IsAmount(q)
    ensures HourName(QuantityName(q)) <==> IsHour(q)
    ensures SecondsName(QuantityName(q)) <==> !IsAmount(q) && !IsHour(q)
    ensures QuantityName(q) == "schedule_up_hour" <==> q.ScheduleUpHour?
  {
  }

  lemma PlainKinds(p: Plain)
    ensures var s := PlainName(p);
            && !AmountName(s) && !HourName(s) && !SecondsName(s)
            && (ListName(s) <==> p.Blocklist? || p.Allowlist?)
            && (SwitchName(s) <==> p.RejectPrivateIp? || p.ScheduleDisabled?)
            && (s == "host_id" <==> p.HostId?) && (s == "schedule_days" <==> p.ScheduleDays?)
  {
  }

  lemma QuantityNamesKnown(s: string)
    ensures AmountName(s) || HourName(s) || SecondsName(s) <==> QuantityNamed(s).Some?
  {
  }

  lemma PlainNamesKnown(s: string)
    ensures ListName(s) || SwitchName(s) || s == "host_id" || s == "schedule_days" <==> PlainNamed(s).Some?
  {
  }

  lemma BoundsAt(snap: Row, q: Quantity)
    ensures At(snap, "bound", QuantityName(q) + "_min") == Number(snap, Bound(q, Min))
    ensures At(snap, "bound", QuantityName(q) + "_max") == Number(snap, Bound(q, Max))
    ensures At(snap, "config", QuantityName(q)) == Number(snap, Level(q))
  {
    NameSelectsItsColumn(Bound(q, Min));
    NameSelectsItsColumn(Bound(q, Max));
    NameSelectsItsColumn(Level(q));
  }

  // ---- Status by request ----

  lemma IntegersDecode(v: Json)
    ensures DecodeInt(v).Some? <==> v.Null? || Integer(v)
    ensures DecodeInt(v).Some? ==> DecodeInt(v).value as real == Value(v)
    ensures DecodeInt(v).Some? ==> (0 <= DecodeInt(v).value <= 23 <==> 0.0 <= Value(v) <= 23.0)
  {
  }

  lemma AmountExactly(q: Quantity, v: Json, snap: Row)
    requires IsAmount(q)
    ensures ValidateLevel(q, v, snap).Some? <==> AcceptableConfig(QuantityName(q), v, snap)
  {
    QuantityKinds(q);
    BoundsAt(snap, q);
  }

  lemma SecondsExactly(q: Quantity, v: Json, snap: Row)
    requires !IsAmount(q) && !IsHour(q)
    ensures ValidateLevel(q, v, snap).Some? <==> AcceptableConfig(QuantityName(q), v, snap)
  {
    QuantityKinds(q);
    BoundsAt(snap, q);
    IntegersDecode(v);
  }

  lemma HourExactly(q: Quantity, v: Json, snap: Row)
    requires IsHour(q)
    ensures ValidateLevel(q, v, snap).Some? <==> AcceptableConfig(QuantityName(q), v, snap)
  {
    QuantityKinds(q);
    BoundsAt(snap, q);
    BoundsAt(snap, OtherHour(q));
    IntegersDecode(v);
  }

  lemma LevelExactly(q: Quantity, v: Json, snap: Row)
    ensures ValidateLevel(q, v, snap).Some? <==> AcceptableConfig(QuantityName(q), v, snap)
  {
    if IsAmount(q) {
      AmountExactly(q, v, snap);
    } else if IsHour(q) {
      HourExactly(q, v, snap);
    } else {
      SecondsExactly(q, v, snap);
    }
  }

  lemma BoundExactly(q: Quantity, side: Side, v: Json, snap: Row)
    ensures ValidateBound(q, side, v, snap).Some? <==> AcceptableBound(QuantityName(q), side.Min?, v, snap)
  {
    QuantityKinds(q);
    BoundsAt(snap, q);
  }

  lemma PlainExactly(p: Plain, v: Json, snap: Row)
    ensures ValidatePlain(p, v).Some? <==> AcceptableConfig(PlainName(p), v, snap)
  {
    PlainKinds(p);
    PlainAcceptsExactly(p, v);
    if p.ScheduleDays? && v.Arr? {
      forall x | x in v.items
        ensures IsDayName(x) <==> x.Str? && x.s in ["sun", "mon", "tue", "wed", "thu", "fri", "sat"]
      {
      }
    }
  }

  /** The suffix of a bound's name can be cut off again. */
  lemma BoundNameIsUnique(a: string, b: string, s: Side, t: Side)
    ensures a + SideName(s) == b + SideName(t) ==> a == b && s == t
  {
    if a + SideName(s) == b + SideName(t) {
      var x := a + SideName(s);
      assert x[..|x| - 4] == a && (b + SideName(t))[..|x| - 4] == b;
      assert x[|x| - 4..] == SideName(s) && (b + SideName(t))[|x| - 4..] == SideName(t);
    }
  }

  lemma ColumnExactly(c: Column, v: Json, snap: Row)
    ensures Validate(c, v, snap).Some? <==> Acceptable(Kind(c), Name(c), v, snap)
  {
    match c
    case Field(p) => PlainExactly(p, v, snap);
    case Level(q) => LevelExactly(q, v, snap);
    case Bound(q, side) =>
      BoundExactly(q, side, v, snap);
      forall name: string
        ensures Name(c) == name + "_min" ==> name == QuantityName(q) && side.Min?
        ensures Name(c) == name + "_max" ==> name == QuantityName(q) && side.Max?
      {
        BoundNameIsUnique(QuantityName(q), name, side, Min);
        BoundNameIsUnique(QuantityName(q), name, side, Max);
      }
      assert Name(c) == QuantityName(q) + SideName(side);
  }

  lemma UnknownIsUnacceptable(kind: string, field: string, v: Json, snap: Row)
    requires ColumnNamed(kind, field).None?
    ensures !Acceptable(kind, field, v, snap)
    ensures kind == "config" ==> !ListName(field)
  {
    if kind == "config" {
      QuantityNamesKnown(field);
      PlainNamesKnown(field);
    }
    if kind == "bound" {
      forall name: string
        ensures !(field == name + "_min" && AcceptableBound(name, true, v, snap))
        ensures !(field == name + "_max" && AcceptableBound(name, false, v, snap))
      {
        QuantityNamesKnown(name);
        if QuantityNamed(name).Some? {
          QuantityNamedIsItsName(name);
          NameSelectsItsColumn(Bound(QuantityNamed(name).value, Min));
          NameSelectsItsColumn(Bound(QuantityNamed(name).value, Max));
        }
      }
    }
  }

  /** The status of a request: `ServeHTTP` answers with it. */
  function ResponseTo(kind: string, field: string, v: Json, snap: Row, reply: DbReply): int {
    var c := ColumnNamed(kind, field);
    if c.None? then BAD_REQUEST else StatusOf(c.value, v, snap, reply)
  }

  /**
   200 exactly for an acceptable value whose UPDATE succeeds; 500 exactly when it fails,
   or for a null list, which the database refuses; 400 for everything else.
   */
  lemma AnsweredExactly(kind: string, field: string, v: Json, snap: Row, reply: DbReply)
    ensures ResponseTo(kind, field, v, snap, reply) ==
            if Acceptable(kind, field, v, snap) then (if reply.Updated? then 200 else 500)
            else if kind == "config" && ListName(field) && v.Null? then 500
            else 400
  {
    var c := ColumnNamed(kind, field);
    if c.None? {
      UnknownIsUnacceptable(kind, field, v, snap);
    } else {
      SelectedColumnIsNamed(kind, field);
      ColumnExactly(c.value, v, snap);
      NullListExactly(c.value, v);
      if NullList(c.value, v) {
        assert Validate(c.value, v, snap).None?;
      }
    }
  }

  lemma NullListExactly(c: Column, v: Json)
    ensures NullList(c, v) <==> Kind(c) == "config" && ListName(Name(c)) && v.Null?
  {
    match c
    case Field(p) => PlainKinds(p);
    case Level(q) =>
      PlainNamesKnown(QuantityName(q));
      QuantityNames(q);
    case Bound(_, _) =>
  }

  // ---- What an accepted request stores ----

  /** A null, where it is accepted, is stored as false for a switch and as zero for a number. */
  lemma NullStored(c: Column, snap: Row)
    requires Validate(c, Null, snap).Some?
    ensures Validate(c, Null, snap).value == if c.Field? && SwitchName(Name(c)) then Bool(false) else Num(0.0)
  {
    match c
    case Field(p) => PlainKinds(p);
    case _ =>
  }

  /** A value without nulls, and in range on an integer bound, is what the row then holds; nothing else changes. */
  lemma StoredExactly(kind: string, field: string, v: Json, row: Row, snap: Row, reply: DbReply)
    requires Typed(snap) && Acceptable(kind, field, v, snap) && ColumnNamed(kind, field).Some?
    ensures var c := ColumnNamed(kind, field).value;
            && (reply == Failed(false) ==> Patched(row, c, v, snap, reply) == row)
            && (reply != Failed(false) && StoredAsGiven(c, v) ==> Patched(row, c, v, snap, reply) == row[c := v])
            && (reply != Failed(false) && v.Null? ==>
                  Patched(row, c, v, snap, reply) == row[c := if SwitchName(field) then Bool(false) else Num(0.0)])
  {
    var c := ColumnNamed(kind, field).value;
    SelectedColumnIsNamed(kind, field);
    ColumnExactly(c, v, snap);
    StoredUnchangedExactly(c, v, snap);
    NumberIsNoSwitch(c);
    if v.Null? {
      NullStored(c, snap);
    }
  }

  lemma NumberIsNoSwitch(c: Column)
    ensures SwitchName(Name(c)) ==> c.Field?
  {
    match c
    case Field(_) =>
    case Level(q) => QuantityIsNoSwitch(q);
    case Bound(q, side) => BoundIsNoSwitch(q, side);
  }

  lemma QuantityIsNoSwitch(q: Quantity)
    ensures !SwitchName(QuantityName(q))
  {
    PlainNamesKnown(QuantityName(q));
    QuantityNames(q);
  }

  lemma BoundIsNoSwitch(q: Quantity, side: Side)
    ensures !SwitchName(QuantityName(q) + SideName(side))
  {
    var s := QuantityName(q) + SideName(side);
    assert s[|s| - 4] == '_' && s[|s| - 3] == 'm';
  }

  // ---- The dashboard's verdict by name ----

  ghost predicate DashboardAllows(kind: string, field: string, v: Json, row: Row) {
    || (kind == "config" && !AmountName(field) && !SecondsName(field) && !HourName(field))
    || (kind == "config" && v.Num? && Between(row, field, v)
        && (HourName(field) ==>
              && 0.0 <= v.r <= 23.0
              && v.r != At(row, "config", if field == "schedule_up_hour" then "schedule_down_hour" else "schedule_up_hour")))
    || (kind == "bound" && v.Num? && exists name: string ::
          || (field == name + "_min" && v.r < At(row, "bound", name + "_max"))
          || (field == name + "_max" && v.r > At(row, "bound", name + "_min")))
  }

  /**
   The dashboard passes any value of a plain field on; a quantity must be a number, whole
   or not, within its bounds, an hour one of the day and not the other hour; a bound must
   be a number on its side of its counterpart.
   */
  lemma DashboardExactly(c: Column, v: Json, row: Row)
    ensures DashboardAccepts(c, v, row) <==> DashboardAllows(Kind(c), Name(c), v, row)
  {
    match c
    case Field(p) => PlainKinds(p);
    case Level(q) =>
      QuantityKinds(q);
      BoundsAt(row, q);
      if IsHour(q) {
        BoundsAt(row, OtherHour(q));
      }
    case Bound(q, side) =>
      BoundsAt(row, q);
      forall name: string
        ensures Name(c) == name + "_min" ==> name == QuantityName(q) && side.Min?
        ensures Name(c) == name + "_max" ==> name == QuantityName(q) && side.Max?
      {
        BoundNameIsUnique(QuantityName(q), name, side, Min);
        BoundNameIsUnique(QuantityName(q), name, side, Max);
      }
      assert Name(c) == QuantityName(q) + SideName(side);
  }
}
