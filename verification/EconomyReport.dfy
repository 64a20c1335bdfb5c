/**
 The cost accrual behind `/admin/economy` and `/admin/operations`, and the merged
 per-day series. Arithmetic is exact. A day stands for its ISO date string, ordered
 as those strings sort; instants are milliseconds. The date set is kept sorted as it
 grows.
 */
module EconomyReport {
  import opened Options

  type Day = int

  datatype Lifecycle = Lifecycle(startedAt: int, endedAt: Option<int>, totalCost: Option<real>, dph: Option<real>)
  datatype PhantomDay = PhantomDay(day: Day, phantom: real)
  datatype SeriesRow = SeriesRow(day: Day, phantom: real, vast: real, economia: real)

  const MS_PER_HOUR := 3_600_000.0

  function HoursBetween(from: int, to: int): real {
    if to < from then 0.0 else (to - from) as real / MS_PER_HOUR
  }

  function Hours(row: Lifecycle, now: int): real {
    HoursBetween(row.startedAt, if row.endedAt.Some? then row.endedAt.value else now)
  }

  /** A closed row costs what was billed; an open one accrues by the hour. */
  function Cost(row: Lifecycle, now: int, rate: real): real {
    if row.endedAt.Some? then (if row.totalCost.Some? then row.totalCost.value else 0.0)
    else if row.dph.Some? then row.dph.value * Hours(row, now) * rate
    else 0.0
  }

  /** The summed cost of the rows a filter keeps. */
  ghost function Total(rows: seq<Lifecycle>, now: int, rate: real, keep: Lifecycle -> bool): real {
    if rows == [] then 0.0
    else
      var last := rows[|rows| - 1];
      Total(rows[..|rows| - 1], now, rate, keep) + if keep(last) then Cost(last, now, rate) else 0.0
  }

  ghost function TotalHours(rows: seq<Lifecycle>, now: int): real {
    if rows == [] then 0.0 else TotalHours(rows[..|rows| - 1], now) + Hours(rows[|rows| - 1], now)
  }

  function All(): Lifecycle -> bool {
    row => true
  }

  function OnDay(dayOf: int -> Day, day: Day): Lifecycle -> bool {
    (row: Lifecycle) => dayOf(row.startedAt) == day
  }

  function Since(instant: int): Lifecycle -> bool {
    (row: Lifecycle) => row.startedAt >= instant
  }

  ghost predicate VastDay(rows: seq<Lifecycle>, dayOf: int -> Day, day: Day) {
    exists i :: 0 <= i < |rows| && dayOf(rows[i].startedAt) == day
  }

  ghost predicate PhantomDayIn(rows: seq<PhantomDay>, day: Day) {
    exists i :: 0 <= i < |rows| && rows[i].day == day
  }

  /** The phantom amount of a day: the last row that names it. */
  ghost function PhantomOn(rows: seq<PhantomDay>, day: Day): real {
    if rows == [] then 0.0
    else if rows[|rows| - 1].day == day then rows[|rows| - 1].phantom
    else PhantomOn(rows[..|rows| - 1], day)
  }

  predicate Ascending(days: seq<Day>) {
    forall i, j :: 0 <= i < j < |days| ==> days[i] < days[j]
  }

  /** Adds a day to an ascending list, unless it is there already. */
  function InsertDay(days: seq<Day>, day: Day): seq<Day> {
    if days == [] || days[|days| - 1] < day then days + [day]
    else if days[|days| - 1] == day then days
    else InsertDay(days[..|days| - 1], day) + [days[|days| - 1]]
  }

  lemma {:induction false} InsertDayKeepsOrder(days: seq<Day>, day: Day)
    requires Ascending(days)
    ensures Ascending(InsertDay(days, day))
    ensures forall d :: d in InsertDay(days, day) <==> d in days || d == day
  {
    if days != [] {
      var before, last := days[..|days| - 1], days[|days| - 1];
      assert days == before + [last];
      InsertDayKeepsOrder(before, day);
      var r := InsertDay(before, day);
      if day < last {
        forall i | 0 <= i < |r|
          ensures r[i] < last
        {
          assert r[i] in r;
        }
      }
    }
  }

  datatype Report = Report(vastTotal: real, horasPodUp: real, series: seq<SeriesRow>)

  /** The accrual loop: totals, and the Vast cost of each day a lifecycle started on. */
  method Accrue(rows: seq<Lifecycle>, now: int, rate: real, dayOf: int -> Day)
    returns (vastTotal: real, horasPodUp: real, vastByDate: map<Day, real>)
    ensures vastTotal == Total(rows, now, rate, All()) && horasPodUp == TotalHours(rows, now)
    ensures forall d :: d in vastByDate <==> VastDay(rows, dayOf, d)
    ensures forall d :: d in vastByDate ==> vastByDate[d] == Total(rows, now, rate, OnDay(dayOf, d))
    ensures forall d :: d !in vastByDate ==> Total(rows, now, rate, OnDay(dayOf, d)) == 0.0
  {
    vastTotal, horasPodUp, vastByDate := 0.0, 0.0, map[];
    for i := 0 to |rows|
      invariant vastTotal == Total(rows[..i], now, rate, All()) && horasPodUp == TotalHours(rows[..i], now)
      invariant forall d :: d in vastByDate <==> VastDay(rows[..i], dayOf, d)
      invariant forall d :: d in vastByDate ==> vastByDate[d] == Total(rows[..i], now, rate, OnDay(dayOf, d))
      invariant forall d :: d !in vastByDate ==> Total(rows[..i], now, rate, OnDay(dayOf, d)) == 0.0
    {
      var row := rows[i];
      assert rows[..i + 1] == rows[..i] + [row] && rows[..i + 1][..i] == rows[..i];
      var cost, hours := Cost(row, now, rate), Hours(row, now);
      vastTotal := vastTotal + cost;
      horasPodUp := horasPodUp + hours;
      var day := dayOf(row.startedAt);
      VastDaySnoc(rows[..i], row, dayOf);
      vastByDate := vastByDate[day := (if day in vastByDate then vastByDate[day] else 0.0) + cost];
    }
    assert rows[..|rows|] == rows;
  }

  lemma VastDaySnoc(rows: seq<Lifecycle>, row: Lifecycle, dayOf: int -> Day)
    ensures forall d :: VastDay(rows + [row], dayOf, d) <==> VastDay(rows, dayOf, d) || dayOf(row.startedAt) == d
  {
    var longer := rows + [row];
    assert longer[|rows|] == row;
    forall d | VastDay(rows, dayOf, d)
      ensures VastDay(longer, dayOf, d)
    {
      var i :| 0 <= i < |rows| && dayOf(rows[i].startedAt) == d;
      assert longer[i] == rows[i];
    }
  }

  /** The phantom series as a map, a later row of a day replacing an earlier one. */
  method PhantomByDate(phantoms: seq<PhantomDay>) returns (phantomByDate: map<Day, real>)
    ensures forall d :: d in phantomByDate <==> PhantomDayIn(phantoms, d)
    ensures forall d :: PhantomOn(phantoms, d) == if d in phantomByDate then phantomByDate[d] else 0.0
  {
    phantomByDate := map[];
    for i := 0 to |phantoms|
      invariant forall d :: d in phantomByDate <==> PhantomDayIn(phantoms[..i], d)
      invariant forall d :: PhantomOn(phantoms[..i], d) == if d in phantomByDate then phantomByDate[d] else 0.0
    {
      assert phantoms[..i + 1] == phantoms[..i] + [phantoms[i]] && phantoms[..i + 1][..i] == phantoms[..i];
      PhantomDaySnoc(phantoms[..i], phantoms[i]);
      phantomByDate := phantomByDate[phantoms[i].day := phantoms[i].phantom];
    }
    assert phantoms[..|phantoms|] == phantoms;
  }

  lemma PhantomDaySnoc(rows: seq<PhantomDay>, row: PhantomDay)
    ensures forall d :: PhantomDayIn(rows + [row], d) <==> PhantomDayIn(rows, d) || row.day == d
  {
    var longer := rows + [row];
    assert longer[|rows|] == row;
    forall d | PhantomDayIn(rows, d)
      ensures PhantomDayIn(longer, d)
    {
      var i :| 0 <= i < |rows| && rows[i].day == d;
      assert longer[i] == rows[i];
    }
  }

  /** The days of both series, ascending. */
  method MergedDays(rows: seq<Lifecycle>, phantoms: seq<PhantomDay>, dayOf: int -> Day) returns (dates: seq<Day>)
    ensures Ascending(dates)
    ensures forall d :: d in dates <==> VastDay(rows, dayOf, d) || PhantomDayIn(phantoms, d)
  {
    dates := [];
    for i := 0 to |phantoms|
      invariant Ascending(dates) && forall d :: d in dates <==> PhantomDayIn(phantoms[..i], d)
    {
      assert phantoms[..i + 1] == phantoms[..i] + [phantoms[i]];
      PhantomDaySnoc(phantoms[..i], phantoms[i]);
      InsertDayKeepsOrder(dates, phantoms[i].day);
      dates := InsertDay(dates, phantoms[i].day);
    }
    assert phantoms[..|phantoms|] == phantoms;
    for i := 0 to |rows|
      invariant Ascending(dates)
      invariant forall d :: d in dates <==> VastDay(rows[..i], dayOf, d) || PhantomDayIn(phantoms, d)
    {
      assert rows[..i + 1] == rows[..i] + [rows[i]];
      VastDaySnoc(rows[..i], rows[i], dayOf);
      InsertDayKeepsOrder(dates, dayOf(rows[i].startedAt));
      dates := InsertDay(dates, dayOf(rows[i].startedAt));
    }
    assert rows[..|rows|] == rows;
  }

  method Economy(rows: seq<Lifecycle>, phantoms: seq<PhantomDay>, now: int, rate: real, dayOf: int -> Day)
    returns (report: Report)
    ensures report.vastTotal == Total(rows, now, rate, All())
    ensures report.horasPodUp == TotalHours(rows, now)
    ensures SeriesFor(report.series, rows, phantoms, now, rate, dayOf)
  {
    var vastTotal, horasPodUp, vastByDate := Accrue(rows, now, rate, dayOf);
    var phantomByDate := PhantomByDate(phantoms);
    var dates := MergedDays(rows, phantoms, dayOf);
    var series := [];
    for i := 0 to |dates|
      invariant |series| == i
      invariant forall k :: 0 <= k < i ==> series[k] == RowFor(dates[k], rows, phantoms, now, rate, dayOf)
    {
      var d := dates[i];
      var p := if d in phantomByDate then phantomByDate[d] else 0.0;
      var v := if d in vastByDate then vastByDate[d] else 0.0;
      series := series + [SeriesRow(d, p, v, p - v)];
    }
    assert Days(series) == dates;
    report := Report(vastTotal, horasPodUp, series);
  }

  ghost function RowFor(day: Day, rows: seq<Lifecycle>, phantoms: seq<PhantomDay>, now: int, rate: real,
                        dayOf: int -> Day): SeriesRow {
    var p, v := PhantomOn(phantoms, day), Total(rows, now, rate, OnDay(dayOf, day));
    SeriesRow(day, p, v, p - v)
  }

  function Days(series: seq<SeriesRow>): seq<Day> {
    seq(|series|, k requires 0 <= k < |series| => series[k].day)
  }

  /** One row per phantom or Vast day, in ascending order, with that day's amounts. */
  ghost predicate SeriesFor(series: seq<SeriesRow>, rows: seq<Lifecycle>, phantoms: seq<PhantomDay>, now: int,
                            rate: real, dayOf: int -> Day) {
    && Ascending(Days(series))
    && (forall d :: d in Days(series) <==> VastDay(rows, dayOf, d) || PhantomDayIn(phantoms, d))
    && (forall k :: 0 <= k < |series| ==> series[k] == RowFor(series[k].day, rows, phantoms, now, rate, dayOf))
  }

  /** The month's and today's cost as the operations page adds them up. */
  method Operations(rows: seq<Lifecycle>, now: int, rate: real, dayStart: int)
    returns (monthBRL: real, todayBRL: real)
    ensures monthBRL == Total(rows, now, rate, All())
    ensures todayBRL == Total(rows, now, rate, Since(dayStart))
  {
    monthBRL, todayBRL := 0.0, 0.0;
    for i := 0 to |rows|
      invariant monthBRL == Total(rows[..i], now, rate, All())
      invariant todayBRL == Total(rows[..i], now, rate, Since(dayStart))
    {
      var row := rows[i];
      assert rows[..i + 1][..i] == rows[..i];
      var cost := Cost(row, now, rate);
      if cost != 0.0 {
        monthBRL := monthBRL + cost;
        if row.startedAt >= dayStart {
          todayBRL := todayBRL + cost;
        }
      }
    }
    assert rows[..|rows|] == rows;
  }

  // ---- The series adds up ----

  ghost function SumVast(series: seq<SeriesRow>): real {
    if series == [] then 0.0 else SumVast(series[..|series| - 1]) + series[|series| - 1].vast
  }

  ghost function SumOver(days: seq<Day>, rows: seq<Lifecycle>, now: int, rate: real, dayOf: int -> Day): real {
    if days == [] then 0.0
    else SumOver(days[..|days| - 1], rows, now, rate, dayOf)
         + Total(rows, now, rate, OnDay(dayOf, days[|days| - 1]))
  }

  /** One more row adds its cost to one day of the sum, if that day is among them. */
  lemma {:induction false} OneMoreRow(days: seq<Day>, rows: seq<Lifecycle>, now: int, rate: real, dayOf: int -> Day)
    requires rows != [] && Ascending(days)
    ensures SumOver(days, rows, now, rate, dayOf)
         == SumOver(days, rows[..|rows| - 1], now, rate, dayOf)
            + if dayOf(rows[|rows| - 1].startedAt) in days then Cost(rows[|rows| - 1], now, rate) else 0.0
  {
    if days != [] {
      var before := days[..|days| - 1];
      OneMoreRow(before, rows, now, rate, dayOf);
      assert days == before + [days[|days| - 1]];
    }
  }

  lemma {:induction false} DaysPartitionTotal(days: seq<Day>, rows: seq<Lifecycle>, now: int, rate: real, dayOf: int -> Day)
    requires Ascending(days) && forall row :: row in rows ==> dayOf(row.startedAt) in days
    ensures SumOver(days, rows, now, rate, dayOf) == Total(rows, now, rate, All())
  {
    if rows == [] {
      EmptySum(days, now, rate, dayOf);
    } else {
      DaysPartitionTotal(days, rows[..|rows| - 1], now, rate, dayOf);
      OneMoreRow(days, rows, now, rate, dayOf);
      assert rows[|rows| - 1] in rows;
    }
  }

  lemma {:induction false} EmptySum(days: seq<Day>, now: int, rate: real, dayOf: int -> Day)
    ensures SumOver(days, [], now, rate, dayOf) == 0.0
  {
    if days != [] {
      EmptySum(days[..|days| - 1], now, rate, dayOf);
    }
  }

  lemma {:induction false} SeriesSum(series: seq<SeriesRow>, rows: seq<Lifecycle>, phantoms: seq<PhantomDay>, now: int,
                                     rate: real, dayOf: int -> Day)
    requires forall k :: 0 <= k < |series| ==> series[k] == RowFor(series[k].day, rows, phantoms, now, rate, dayOf)
    ensures SumVast(series) == SumOver(Days(series), rows, now, rate, dayOf)
  {
    if series != [] {
      SeriesSum(series[..|series| - 1], rows, phantoms, now, rate, dayOf);
      assert Days(series)[..|series| - 1] == Days(series[..|series| - 1]);
    }
  }

  /**
   The daily Vast costs of the series add up to the total, which is also what the
   operations page reports as the month's cost on the same rows at the same instant.
   */
  lemma SeriesAddsUp(series: seq<SeriesRow>, rows: seq<Lifecycle>, phantoms: seq<PhantomDay>, now: int, rate: real,
                     dayOf: int -> Day)
    requires SeriesFor(series, rows, phantoms, now, rate, dayOf)
    ensures SumVast(series) == Total(rows, now, rate, All())
  {
    SeriesSum(series, rows, phantoms, now, rate, dayOf);
    forall row | row in rows
      ensures dayOf(row.startedAt) in Days(series)
    {
      var i :| 0 <= i < |rows| && rows[i] == row;
      assert VastDay(rows, dayOf, dayOf(row.startedAt));
    }
    DaysPartitionTotal(Days(series), rows, now, rate, dayOf);
  }

  // ---- Accrual over time ----

  predicate NonNegative(row: Lifecycle) {
    (row.dph.Some? ==> row.dph.value >= 0.0) && (row.totalCost.Some? ==> row.totalCost.value >= 0.0)
  }

  lemma CostGrows(row: Lifecycle, now: int, later: int, rate: real)
    requires NonNegative(row) && rate >= 0.0 && now <= later
    ensures 0.0 <= Cost(row, now, rate) <= Cost(row, later, rate)
  {
    var h, h' := Hours(row, now), Hours(row, later);
    if row.endedAt.None? && row.dph.Some? {
      HoursGrow(row.startedAt, now, later);
      ProductGrows(row.dph.value, h, h');
      ProductGrows(rate, row.dph.value * h, row.dph.value * h');
    }
  }

  lemma HoursGrow(from: int, to: int, later: int)
    requires to <= later
    ensures 0.0 <= HoursBetween(from, to) <= HoursBetween(from, later)
  {
    if from <= to {
      assert (later - from) as real == (to - from) as real + (later - to) as real;
    }
  }

  lemma ProductGrows(k: real, x: real, y: real)
    requires 0.0 <= k && 0.0 <= x <= y
    ensures 0.0 <= k * x <= k * y
  {
  }

  /** With non-negative prices the reported cost never falls as time passes; today's part never exceeds it. */
  lemma {:induction false} TotalGrows(rows: seq<Lifecycle>, now: int, later: int, rate: real, keep: Lifecycle -> bool)
    requires rate >= 0.0 && now <= later && forall row :: row in rows ==> NonNegative(row)
    ensures 0.0 <= Total(rows, now, rate, keep) <= Total(rows, later, rate, keep)
    ensures Total(rows, now, rate, keep) <= Total(rows, now, rate, All())
  {
    if rows != [] {
      TotalGrows(rows[..|rows| - 1], now, later, rate, keep);
      assert rows[|rows| - 1] in rows;
      CostGrows(rows[|rows| - 1], now, later, rate);
    }
  }

  // ---- The amounts, row by row ----

  /** A closed row costs what was billed, nothing if no bill is known; its hours are those it ran. */
  lemma ClosedRowExactly(row: Lifecycle, now: int, rate: real)
    requires row.endedAt.Some?
    ensures Cost(row, now, rate) == if row.totalCost.Some? then row.totalCost.value else 0.0
    ensures Hours(row, now) * 3_600_000.0 ==
            if row.endedAt.value > row.startedAt then (row.endedAt.value - row.startedAt) as real else 0.0
  {
  }

  /** An open row costs its hourly price for the time it has run, converted; nothing without a price or before it began. */
  lemma OpenRowExactly(row: Lifecycle, now: int, rate: real)
    requires row.endedAt.None?
    ensures Hours(row, now) * 3_600_000.0 == if now > row.startedAt then (now - row.startedAt) as real else 0.0
    ensures row.dph.None? ==> Cost(row, now, rate) == 0.0
    ensures row.dph.Some? ==> Cost(row, now, rate) == row.dph.value * Hours(row, now) * rate
  {
  }

  /** What one more row adds to each figure. */
  lemma OneMoreLifecycle(rows: seq<Lifecycle>, row: Lifecycle, now: int, rate: real, dayOf: int -> Day, day: Day, start: int)
    ensures Total(rows + [row], now, rate, All()) == Total(rows, now, rate, All()) + Cost(row, now, rate)
    ensures Total(rows + [row], now, rate, OnDay(dayOf, day)) ==
            Total(rows, now, rate, OnDay(dayOf, day)) + (if dayOf(row.startedAt) == day then Cost(row, now, rate) else 0.0)
    ensures Total(rows + [row], now, rate, Since(start)) ==
            Total(rows, now, rate, Since(start)) + (if start <= row.startedAt then Cost(row, now, rate) else 0.0)
    ensures TotalHours(rows + [row], now) == TotalHours(rows, now) + Hours(row, now)
    ensures Total([], now, rate, All()) == 0.0 && Total([], now, rate, OnDay(dayOf, day)) == 0.0
    ensures Total([], now, rate, Since(start)) == 0.0 && TotalHours([], now) == 0.0
  {
    assert (rows + [row])[..|rows|] == rows;
  }

  /** The phantom amount of a day is that of the last row naming it, 0 if none does. */
  lemma OneMorePhantom(rows: seq<PhantomDay>, row: PhantomDay, day: Day)
    ensures PhantomOn(rows + [row], day) == if row.day == day then row.phantom else PhantomOn(rows, day)
    ensures PhantomOn([], day) == 0.0
  {
    assert (rows + [row])[..|rows|] == rows;
  }

  /** A day's saving is what its phantom amount is above its Vast cost. */
  lemma SavingExactly(series: seq<SeriesRow>, rows: seq<Lifecycle>, phantoms: seq<PhantomDay>, now: int, rate: real,
                      dayOf: int -> Day, k: nat)
    requires SeriesFor(series, rows, phantoms, now, rate, dayOf) && k < |series|
    ensures series[k].vast + series[k].economia == series[k].phantom
    ensures series[k].vast == Total(rows, now, rate, OnDay(dayOf, series[k].day))
    ensures series[k].phantom == PhantomOn(phantoms, series[k].day)
  {
  }
}
