/**
 `gatewayctl billing reconcile`: compare each tenant's billed tokens of today with the
 cached counter, and with --apply rewrite the counters that drift. Arithmetic is exact.
 */
module BillingReconcile {
  import opened Options

  type Tenant = string
  type Day = int

  datatype Billing = Billing(tokensIn: int, tokensOut: int, audioSeconds: real, embeds: int,
                             phantom: real, external_: real, requests: int)
  datatype Counter = Counter(tokensIn: int, tokensOut: int, audioSeconds: int, embeds: int,
                             phantom: real, external_: real, requests: int)
  datatype DayRow = DayRow(date: Option<Day>, billing: Billing)

  type Counters = map<(Tenant, Day), Counter>

  /** A failed rewrite may still have been applied. */
  datatype WriteReply = Written | WriteFailed(applied: bool)

  /** What one run finds: billed days per tenant (None is a failed query), and which calls succeed. */
  datatype Books = Books(days: Tenant -> Option<seq<DayRow>>, cacheOk: Tenant -> bool, write: Tenant -> WriteReply,
                         today: Day)

  function BilledTokens(b: Billing): int {
    b.tokensIn + b.tokensOut
  }

  /** Rounds half away from zero, as `math.Round` does. */
  function Round(r: real): int {
    if r >= 0.0 then (r + 0.5).Floor else -((-r + 0.5).Floor)
  }

  function FromBilling(b: Billing): Counter {
    Counter(b.tokensIn, b.tokensOut, Round(b.audioSeconds), b.embeds, b.phantom, b.external_, b.requests)
  }

  /** The counter carries the billed row, its audio time to the nearest second. */
  predicate Mirrors(c: Counter, b: Billing) {
    && c.tokensIn == b.tokensIn && c.tokensOut == b.tokensOut && c.embeds == b.embeds
    && c.phantom == b.phantom && c.external_ == b.external_ && c.requests == b.requests
    && b.audioSeconds - 0.5 <= c.audioSeconds as real <= b.audioSeconds + 0.5
  }

  lemma FromBillingMirrors(b: Billing)
    ensures Mirrors(FromBilling(b), b)
  {
    var r := b.audioSeconds;
    if r < 0.0 {
      assert Round(r) as real == -((-r + 0.5).Floor as real);
    }
  }

  function CachedTokens(counters: Counters, t: Tenant, books: Books): int {
    if books.cacheOk(t) && (t, books.today) in counters
    then counters[(t, books.today)].tokensIn + counters[(t, books.today)].tokensOut else 0
  }

  /** More than 0.1% of the billed sum apart; a cached value without billing drifts fully. */
  predicate Drifts(billed: int, cached: int) {
    if billed == 0 && cached == 0 then false
    else if billed > 0 then (if billed >= cached then billed - cached else cached - billed) as real / billed as real * 100.0 > 0.1
    else true
  }

  /** In whole tokens: a compared row drifts when a thousand times the gap exceeds the billed sum. */
  lemma DriftThreshold(billed: int, cached: int)
    requires billed > 0
    ensures Drifts(billed, cached) <==> 1000 * (billed - cached) > billed || 1000 * (cached - billed) > billed
  {
    GapThreshold(if billed >= cached then billed - cached else cached - billed, billed);
  }

  lemma GapThreshold(gap: nat, billed: nat)
    requires billed > 0
    ensures gap as real / billed as real * 100.0 > 0.1 <==> 1000 * gap > billed
  {
    QuotientBound(gap as real, billed as real);
    IntegerOrder(1000 * gap, billed);
    assert (1000 * gap) as real == gap as real * 1000.0;
  }

  lemma IntegerOrder(i: int, j: int)
    ensures i > j <==> i as real > j as real
  {
    if i > j {
      assert i as real == j as real + (i - j) as real;
    } else {
      assert j as real == i as real + (j - i) as real;
    }
  }

  lemma QuotientBound(g: real, b: real)
    requires b > 0.0
    ensures g / b * 100.0 > 0.1 <==> g * 1000.0 > b
  {
    var q := g / b;
    assert g == q * b;
    if q * 1000.0 > 1.0 {
      assert (q * 1000.0 - 1.0) * b > 0.0;
    } else {
      assert (1.0 - q * 1000.0) * b >= 0.0;
    }
  }

  /** Rewritten counters agree with billing unless the billed sum is negative. */
  lemma EqualSumsDriftIff(billed: int)
    ensures Drifts(billed, billed) <==> billed < 0
  {
    if billed > 0 {
      DriftThreshold(billed, billed);
    }
  }

  /** The billed row of today, of which the per-date grouping yields at most one. */
  function TodayOf(rows: seq<DayRow>, today: Day): Option<Billing> {
    if rows == [] then None
    else if rows[|rows| - 1].date == Some(today) then Some(rows[|rows| - 1].billing)
    else TodayOf(rows[..|rows| - 1], today)
  }

  ghost predicate OneRowPerDay(rows: seq<DayRow>) {
    forall i, j :: 0 <= i < j < |rows| && rows[i].date.Some? ==> rows[i].date != rows[j].date
  }

  lemma {:induction false} TodayAt(rows: seq<DayRow>, today: Day, i: nat)
    requires OneRowPerDay(rows) && i < |rows| && rows[i].date == Some(today)
    ensures TodayOf(rows, today) == Some(rows[i].billing)
  {
    if i < |rows| - 1 {
      TodayAt(rows[..|rows| - 1], today, i);
    }
  }

  predicate TenantDrifts(counters: Counters, t: Tenant, books: Books) {
    && books.days(t).Some?
    && var b := TodayOf(books.days(t).value, books.today);
       b.Some? && Drifts(BilledTokens(b.value), CachedTokens(counters, t, books))
  }

  /** The counters after the drifting ones among some tenants were rewritten. */
  function Rewritten(counters: Counters, tenants: seq<Tenant>, books: Books): Counters {
    if tenants == [] then counters
    else
      var before, t := Rewritten(counters, tenants[..|tenants| - 1], books), tenants[|tenants| - 1];
      if TenantDrifts(counters, t, books)
      then before[(t, books.today) := FromBilling(TodayOf(books.days(t).value, books.today).value)]
      else before
  }

  /** The tenants at which a run gives up: the billing query fails, or a needed rewrite does. */
  predicate GivesUpAt(counters: Counters, t: Tenant, books: Books, apply: bool) {
    books.days(t).None? || (apply && TenantDrifts(counters, t, books) && books.write(t).WriteFailed?)
  }

  /** The tenants whose counters a run that gives up at tenant k has rewritten. */
  function RewrittenBefore(counters: Counters, tenants: seq<Tenant>, k: nat, books: Books): Counters
    requires k < |tenants|
  {
    Rewritten(counters, if books.days(tenants[k]).Some? && books.write(tenants[k]) == WriteFailed(true)
                        then tenants[..k + 1] else tenants[..k], books)
  }

  datatype TenantResult = Settled(drift: bool) | Failed

  class Reconciler {
    var counters: Counters

    constructor (counters: Counters)
      ensures this.counters == counters
    {
      this.counters := counters;
    }

    /** One tenant: its days are scanned, today's is compared and, with --apply, rewritten. */
    method ReconcileTenant(t: Tenant, rows: seq<DayRow>, books: Books, apply: bool) returns (r: TenantResult)
      requires books.days(t) == Some(rows) && OneRowPerDay(rows)
      modifies this
      ensures r.Failed? <==> apply && TenantDrifts(old(counters), t, books) && books.write(t).WriteFailed?
      ensures r.Failed? ==>
                counters == if books.write(t).applied
                            then old(counters)[(t, books.today) := FromBilling(TodayOf(rows, books.today).value)]
                            else old(counters)
      ensures r.Settled? ==>
                && r.drift == TenantDrifts(old(counters), t, books)
                && counters == if r.drift && apply
                               then old(counters)[(t, books.today) := FromBilling(TodayOf(rows, books.today).value)]
                               else old(counters)
    {
      var cachedSum := CachedTokens(counters, t, books);
      var drift := false;
      for i := 0 to |rows|
        invariant TodayOf(rows[..i], books.today).None? ==> !drift && counters == old(counters)
        invariant TodayOf(rows[..i], books.today).Some? ==>
                    var b := TodayOf(rows[..i], books.today).value;
                    && (exists k :: 0 <= k < i && rows[k].date == Some(books.today))
                    && drift == Drifts(BilledTokens(b), cachedSum)
                    && (drift && apply ==> books.write(t).Written?)
                    && counters == if drift && apply then old(counters)[(t, books.today) := FromBilling(b)]
                                   else old(counters)
      {
        var row := rows[i];
        assert rows[..i + 1][..i] == rows[..i];
        if row.date == Some(books.today) {
          var billingSum := BilledTokens(row.billing);
          if Drifts(billingSum, cachedSum) {
            drift := true;
            if apply {
              if books.write(t) != WriteFailed(false) {
                counters := counters[(t, books.today) := FromBilling(row.billing)];
              }
              if books.write(t).WriteFailed? {
                TodayAt(rows, books.today, i);
                return Failed;
              }
            }
          }
        }
      }
      assert rows[..|rows|] == rows;
      return Settled(drift);
    }

    method Reconcile(tenants: seq<Tenant>, books: Books, apply: bool) returns (exit: int)
      requires forall i, j :: 0 <= i < j < |tenants| ==> tenants[i] != tenants[j]
      requires forall t :: t in tenants && books.days(t).Some? ==> OneRowPerDay(books.days(t).value)
      modifies this
      ensures exit == 0 || exit == 1
      ensures exit == 0 <==>
              && (forall t :: t in tenants ==> !GivesUpAt(old(counters), t, books, apply))
              && (apply || forall t :: t in tenants ==> !TenantDrifts(old(counters), t, books))
      ensures exit == 0 && apply ==> counters == Rewritten(old(counters), tenants, books)
      ensures exit == 1 && apply ==>
                exists k :: 0 <= k < |tenants| && GivesUpAt(old(counters), tenants[k], books, apply)
                            && (forall m :: 0 <= m < k ==> !GivesUpAt(old(counters), tenants[m], books, apply))
                            && counters == RewrittenBefore(old(counters), tenants, k, books)
      ensures !apply ==> counters == old(counters)
    {
      var anyDrift := false;
      for i := 0 to |tenants|
        invariant counters == if apply then Rewritten(old(counters), tenants[..i], books) else old(counters)
        invariant anyDrift <==> exists k :: 0 <= k < i && TenantDrifts(old(counters), tenants[k], books)
        invariant forall k :: 0 <= k < i ==> !GivesUpAt(old(counters), tenants[k], books, apply)
      {
        var t := tenants[i];
        var days := books.days(t);
        if days.None? {
          assert GivesUpAt(old(counters), t, books, apply);
          return 1;
        }
        OneMoreTenant(old(counters), tenants, i, books);
        var r := ReconcileTenant(t, days.value, books, apply);
        if r.Failed? {
          assert GivesUpAt(old(counters), t, books, apply);
          return 1;
        }
        anyDrift := anyDrift || r.drift;
      }
      assert tenants[..|tenants|] == tenants;
      return if anyDrift && !apply then 1 else 0;
    }
  }

  /** The next tenant drifts as it did before any rewrite, and is rewritten on top of the others. */
  lemma OneMoreTenant(counters: Counters, tenants: seq<Tenant>, i: nat, books: Books)
    requires i < |tenants| && forall j :: 0 <= j < i ==> tenants[j] != tenants[i]
    ensures var t, before := tenants[i], Rewritten(counters, tenants[..i], books);
            && TenantDrifts(before, t, books) == TenantDrifts(counters, t, books)
            && Rewritten(counters, tenants[..i + 1], books) ==
               if TenantDrifts(counters, t, books)
               then before[(t, books.today) := FromBilling(TodayOf(books.days(t).value, books.today).value)]
               else before
  {
    assert tenants[..i + 1][..i] == tenants[..i];
    RewrittenElsewhere(counters, tenants[..i], books, (tenants[i], books.today));
  }

  /** A key that belongs to none of the tenants keeps its counter. */
  lemma {:induction false} RewrittenElsewhere(counters: Counters, tenants: seq<Tenant>, books: Books, key: (Tenant, Day))
    requires key.0 !in tenants || key.1 != books.today
    ensures key in Rewritten(counters, tenants, books) <==> key in counters
    ensures key in counters ==> Rewritten(counters, tenants, books)[key] == counters[key]
  {
    if tenants != [] {
      RewrittenElsewhere(counters, tenants[..|tenants| - 1], books, key);
    }
  }

  /** After a rewrite each drifting tenant's counter of today is its billed row, and no other counter changed. */
  lemma {:induction false} RewrittenMeaning(counters: Counters, tenants: seq<Tenant>, books: Books, key: (Tenant, Day))
    requires forall i, j :: 0 <= i < j < |tenants| ==> tenants[i] != tenants[j]
    ensures var after := Rewritten(counters, tenants, books);
            if key.0 in tenants && key.1 == books.today && TenantDrifts(counters, key.0, books)
            then key in after && after[key] == FromBilling(TodayOf(books.days(key.0).value, books.today).value)
                 && Mirrors(after[key], TodayOf(books.days(key.0).value, books.today).value)
            else (key in after <==> key in counters) && (key in counters ==> after[key] == counters[key])
  {
    if tenants != [] {
      var before, t := tenants[..|tenants| - 1], tenants[|tenants| - 1];
      assert tenants == before + [t];
      RewrittenMeaning(counters, before, books, key);
      if TenantDrifts(counters, t, books) {
        FromBillingMirrors(TodayOf(books.days(t).value, books.today).value);
      }
    }
  }

  /**
   A second run right after a successful --apply, on the same billing, finds drift for a
   tenant exactly when today is billed and the billed sum is negative; or it is positive
   and the cache cannot be read this time; or it is zero, the cache could not be read the
   first time, can be now, and holds tokens.
   */
  lemma RerunDriftsExactly(counters: Counters, tenants: seq<Tenant>, books: Books, again: Books, t: Tenant)
    requires forall i, j :: 0 <= i < j < |tenants| ==> tenants[i] != tenants[j]
    requires t in tenants && again.days(t) == books.days(t) && again.today == books.today
    ensures TenantDrifts(Rewritten(counters, tenants, books), t, again) <==>
            && books.days(t).Some? && TodayOf(books.days(t).value, books.today).Some?
            && var billed := BilledTokens(TodayOf(books.days(t).value, books.today).value);
               || billed < 0
               || (billed > 0 && !again.cacheOk(t))
               || (billed == 0 && again.cacheOk(t) && !books.cacheOk(t) && CachedTokens(counters, t, again) != 0)
  {
    RewrittenMeaning(counters, tenants, books, (t, books.today));
    if books.days(t).Some? && TodayOf(books.days(t).value, books.today).Some? {
      var billed := BilledTokens(TodayOf(books.days(t).value, books.today).value);
      EqualSumsDriftIff(billed);
      if billed > 0 {
        DriftThreshold(billed, 0);
      }
    }
  }

  /**
   Drift read off the rows: today is billed, and the billed tokens, in and out together,
   are negative, or zero with tokens cached, or more than 0.1% apart from the cached ones.
   A counter that is missing or cannot be read counts as zero.
   */
  lemma TenantDriftsExactly(counters: Counters, t: Tenant, books: Books)
    requires books.days(t).Some?
    ensures var today := TodayOf(books.days(t).value, books.today);
            var billed := if today.Some? then today.value.tokensIn + today.value.tokensOut else 0;
            var cached := if books.cacheOk(t) && (t, books.today) in counters
                          then counters[(t, books.today)].tokensIn + counters[(t, books.today)].tokensOut else 0;
            TenantDrifts(counters, t, books) <==>
              && today.Some?
              && (billed < 0 || (billed == 0 && cached != 0)
                  || (billed > 0 && (1000 * (billed - cached) > billed || 1000 * (cached - billed) > billed)))
  {
    var today := TodayOf(books.days(t).value, books.today);
    if today.Some? && BilledTokens(today.value) > 0 {
      DriftThreshold(BilledTokens(today.value), CachedTokens(counters, t, books));
    }
  }

  /** Half a second of audio rounds away from zero. */
  lemma HalvesRoundAway(i: int)
    requires i >= 0
    ensures Round(i as real + 0.5) == i + 1
    ensures Round(-(i as real) - 0.5) == -i - 1
  {
    assert i as real + 1.0 == (i + 1) as real;
  }
}
