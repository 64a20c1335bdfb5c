/**
 `Verifier.Verify`: a 60-second positive cache in front of the admin key table.

 The table maps a raw key (standing for its lookup hash) to its active row. A row is
 good for a raw key when its stored hash was made from that key. Any change of the
 table, failing Redis calls and failing queries are part of a run, and so is the time
 between a lookup's query and its write to the cache, in which other requests and
 changes of the table may come. Times are milliseconds.
 */
module AdminKeys {
  import opened Options

  const ADMIN_CACHE_TTL: int := 60_000

  datatype Identity = Identity(id: string, name: string, prefix: string)
  datatype KeyRow = KeyRow(identity: Identity, hashOf: string)
  datatype CacheEntry = CacheEntry(identity: Identity, expiry: int)

  type Table = map<string, KeyRow>
  type Cache = map<string, CacheEntry>

  /** Whether the read, the query and the write succeed, and whether a failed write was applied. */
  datatype Weather = Weather(readOk: bool, queryOk: bool, writeOk: bool, writeApplied: bool)

  datatype Verdict = Accepted(identity: Identity) | MissingKey | InvalidKey | QueryFailed

  function Active(table: Table, raw: string): Option<Identity> {
    if raw in table && table[raw].hashOf == raw then Some(table[raw].identity) else None
  }

  function Cached(cache: Cache, raw: string, now: int): Option<Identity> {
    if raw in cache && now < cache[raw].expiry then Some(cache[raw].identity) else None
  }

  function VerdictOf(table: Table, cache: Cache, raw: string, now: int, w: Weather): Verdict {
    if raw == "" then MissingKey
    else if w.readOk && Cached(cache, raw, now).Some? then Accepted(Cached(cache, raw, now).value)
    else if !w.queryOk then QueryFailed
    else if Active(table, raw).Some? then Accepted(Active(table, raw).value)
    else InvalidKey
  }

  /** What a lookup is about to write to the cache: nothing for a hit or a rejection. */
  function Found(table: Table, cache: Cache, raw: string, now: int, w: Weather): Option<Identity> {
    if raw != "" && !(w.readOk && Cached(cache, raw, now).Some?) && w.queryOk then Active(table, raw) else None
  }

  function Stored(cache: Cache, raw: string, identity: Identity, now: int): Cache {
    cache[raw := CacheEntry(identity, now + ADMIN_CACHE_TTL)]
  }

  function CacheAfter(table: Table, cache: Cache, raw: string, now: int, w: Weather): Cache {
    var found := Found(table, cache, raw, now, w);
    if found.Some? && (w.writeOk || w.writeApplied) then Stored(cache, raw, found.value, now) else cache
  }

  class Verifier {
    var table: Table
    var cache: Cache
    var now: int

    constructor (table: Table, now: int)
      ensures this.table == table && cache == map[] && this.now == now
    {
      this.table, cache, this.now := table, map[], now;
    }

    method Verify(raw: string, w: Weather) returns (v: Verdict)
      modifies this`cache
      ensures v == VerdictOf(table, old(cache), raw, now, w)
      ensures cache == CacheAfter(table, old(cache), raw, now, w)
    {
      if raw == "" {
        return MissingKey;
      }
      if w.readOk && raw in cache && now < cache[raw].expiry {
        return Accepted(cache[raw].identity);
      }
      if !w.queryOk {
        return QueryFailed;
      }
      if raw !in table {
        return InvalidKey;
      }
      var row := table[raw];
      if row.hashOf != raw {
        return InvalidKey;
      }
      if w.writeOk || w.writeApplied {
        cache := cache[raw := CacheEntry(row.identity, now + ADMIN_CACHE_TTL)];
      }
      return Accepted(row.identity);
    }
  }

  // ---- Runs ----

  /** A lookup that found its row at `at` and has not written it yet. */
  datatype Pending = Pending(raw: string, identity: Identity, at: int)

  datatype State = State(now: int, table: Table, cache: Cache, pending: seq<Pending>)

  /** A Store is the cache write of some pending lookup, applied or not. */
  datatype Step =
    | Tick(elapsed: nat)
    | ChangeTable(table: Table)
    | Lookup(raw: string, w: Weather)
    | Store(index: nat, applied: bool)

  function Next(s: State, step: Step): State {
    match step
    case Tick(elapsed) => s.(now := s.now + elapsed)
    case ChangeTable(table) => s.(table := table)
    case Lookup(raw, w) =>
      var found := Found(s.table, s.cache, raw, s.now, w);
      if found.Some? then s.(pending := s.pending + [Pending(raw, found.value, s.now)]) else s
    case Store(i, applied) =>
      if i >= |s.pending| then s
      else
        s.(cache := if applied then Stored(s.cache, s.pending[i].raw, s.pending[i].identity, s.now) else s.cache,
           pending := s.pending[..i] + s.pending[i + 1..])
  }

  function Run(table: Table, steps: seq<Step>): State {
    if steps == [] then State(0, table, map[], []) else Next(Run(table, steps[..|steps| - 1]), steps[|steps| - 1])
  }

  lemma RunSnoc(table: Table, steps: seq<Step>, step: Step)
    ensures Run(table, steps + [step]) == Next(Run(table, steps), step)
  {
    assert (steps + [step])[..|steps|] == steps;
  }

  /** `Verify` undisturbed is a lookup and at once its store. */
  lemma VerifyIsLookupAndStore(s: State, raw: string, w: Weather)
    ensures var looked := Next(s, Lookup(raw, w));
            var s' := if Found(s.table, s.cache, raw, s.now, w).Some?
                      then Next(looked, Store(|s.pending|, w.writeOk || w.writeApplied)) else looked;
            s' == s.(cache := CacheAfter(s.table, s.cache, raw, s.now, w))
  {
    var looked := Next(s, Lookup(raw, w));
    if Found(s.table, s.cache, raw, s.now, w).Some? {
      assert looked.pending[..|s.pending|] + looked.pending[|s.pending| + 1..] == s.pending;
    }
  }

  /** No store comes more than `lag` after its query. */
  predicate Prompt(table: Table, steps: seq<Step>, lag: nat) {
    steps == []
    || (var before, step := steps[..|steps| - 1], steps[|steps| - 1];
        && Prompt(table, before, lag)
        && (step.Store? && step.index < |Run(table, before).pending| ==>
              Run(table, before).now - Run(table, before).pending[step.index].at <= lag))
  }

  lemma PromptSnoc(table: Table, before: seq<Step>, step: Step, lag: nat)
    requires Prompt(table, before, lag)
    requires step.Store? && step.index < |Run(table, before).pending| ==>
               Run(table, before).now - Run(table, before).pending[step.index].at <= lag
    ensures Prompt(table, before + [step], lag)
  {
    assert (before + [step])[..|before|] == before;
  }

  /** After `k` steps, at this time, the key was active with this identity. */
  ghost predicate ActiveAt(table: Table, steps: seq<Step>, k: nat, raw: string, identity: Identity, at: int) {
    && k <= |steps|
    && Active(Run(table, steps[..k]).table, raw) == Some(identity)
    && Run(table, steps[..k]).now == at
  }

  ghost predicate ActiveSince(table: Table, steps: seq<Step>, raw: string, identity: Identity, from: int, to: int) {
    exists k: nat, at: int :: from < at <= to && ActiveAt(table, steps, k, raw, identity, at)
  }

  /** Its row was active a TTL before its expiry, or at most the lag before that. */
  ghost predicate EntryWasActive(table: Table, steps: seq<Step>, lag: nat, raw: string, e: CacheEntry) {
    exists k: nat, at: int ::
      at + 60_000 <= e.expiry <= at + 60_000 + lag && ActiveAt(table, steps, k, raw, e.identity, at)
  }

  ghost predicate PendingWasActive(table: Table, steps: seq<Step>, p: Pending) {
    exists k: nat :: ActiveAt(table, steps, k, p.raw, p.identity, p.at)
  }

  ghost predicate PendingInvariant(table: Table, steps: seq<Step>, s: State) {
    forall p :: p in s.pending ==> p.at <= s.now && PendingWasActive(table, steps, p)
  }

  ghost predicate CacheInvariant(table: Table, steps: seq<Step>, lag: nat) {
    var s := Run(table, steps);
    && (forall raw :: raw in s.cache ==> EntryWasActive(table, steps, lag, raw, s.cache[raw]))
    && PendingInvariant(table, steps, s)
  }

  lemma {:induction false} TimeRuns(table: Table, steps: seq<Step>, k: nat)
    requires k <= |steps|
    ensures Run(table, steps[..k]).now <= Run(table, steps).now
  {
    if k == |steps| {
      assert steps[..k] == steps;
    } else {
      assert steps[..|steps| - 1][..k] == steps[..k];
      TimeRuns(table, steps[..|steps| - 1], k);
    }
  }

  lemma ActiveStays(table: Table, steps: seq<Step>, k: nat, raw: string, identity: Identity, at: int)
    requires steps != [] && ActiveAt(table, steps[..|steps| - 1], k, raw, identity, at)
    ensures ActiveAt(table, steps, k, raw, identity, at)
  {
    assert steps[..|steps| - 1][..k] == steps[..k];
  }

  lemma EntryStays(table: Table, steps: seq<Step>, lag: nat, raw: string, e: CacheEntry)
    requires steps != [] && EntryWasActive(table, steps[..|steps| - 1], lag, raw, e)
    ensures EntryWasActive(table, steps, lag, raw, e)
  {
    var k: nat, at: int :|
      at + 60_000 <= e.expiry <= at + 60_000 + lag
      && ActiveAt(table, steps[..|steps| - 1], k, raw, e.identity, at);
    ActiveStays(table, steps, k, raw, e.identity, at);
  }

  lemma PendingStays(table: Table, steps: seq<Step>, p: Pending)
    requires steps != [] && PendingWasActive(table, steps[..|steps| - 1], p)
    ensures PendingWasActive(table, steps, p)
  {
    var k: nat :| ActiveAt(table, steps[..|steps| - 1], k, p.raw, p.identity, p.at);
    ActiveStays(table, steps, k, p.raw, p.identity, p.at);
  }

  /** A pending lookup that is stored in time leaves an entry that was active. */
  lemma StoredWasActive(table: Table, steps: seq<Step>, lag: nat, p: Pending, now: int)
    requires PendingWasActive(table, steps, p) && p.at <= now <= p.at + lag
    ensures EntryWasActive(table, steps, lag, p.raw, CacheEntry(p.identity, now + ADMIN_CACHE_TTL))
  {
    var k: nat :| ActiveAt(table, steps, k, p.raw, p.identity, p.at);
  }

  /** A pending lookup was pending before, or has just found its row. */
  lemma PendingAfter(s: State, step: Step, p: Pending)
    requires p in Next(s, step).pending
    ensures p in s.pending || (p.at == s.now && Active(s.table, p.raw) == Some(p.identity))
  {
  }

  lemma OnePendingKept(table: Table, steps: seq<Step>, before: seq<Step>, s: State, p: Pending)
    requires steps != [] && before == steps[..|steps| - 1] && s == Run(table, before)
    requires p in Next(s, steps[|steps| - 1]).pending
    requires p in s.pending ==> p.at <= s.now && PendingWasActive(table, before, p)
    ensures p.at <= s.now && PendingWasActive(table, steps, p)
  {
    PendingAfter(s, steps[|steps| - 1], p);
    if p in s.pending {
      PendingStays(table, steps, p);
    } else {
      assert ActiveAt(table, steps, |before|, p.raw, p.identity, p.at);
    }
  }

  lemma PendingKept(table: Table, steps: seq<Step>, before: seq<Step>, s: State)
    requires steps != [] && before == steps[..|steps| - 1] && s == Run(table, before)
    requires PendingInvariant(table, before, s)
    ensures PendingInvariant(table, steps, Next(s, steps[|steps| - 1]))
  {
    var s' := Next(s, steps[|steps| - 1]);
    assert s.now <= s'.now;
    forall p | p in s'.pending
      ensures p.at <= s'.now && PendingWasActive(table, steps, p)
    {
      OnePendingKept(table, steps, before, s, p);
    }
  }

  lemma CacheKept(table: Table, steps: seq<Step>, lag: nat)
    requires steps != [] && CacheInvariant(table, steps[..|steps| - 1], lag) && Prompt(table, steps, lag)
    ensures var s' := Run(table, steps);
            forall raw :: raw in s'.cache ==> EntryWasActive(table, steps, lag, raw, s'.cache[raw])
  {
    var before, step := steps[..|steps| - 1], steps[|steps| - 1];
    var s, s' := Run(table, before), Run(table, steps);
    forall raw | raw in s'.cache
      ensures EntryWasActive(table, steps, lag, raw, s'.cache[raw])
    {
      if raw in s.cache && s.cache[raw] == s'.cache[raw] {
        EntryStays(table, steps, lag, raw, s.cache[raw]);
      } else {
        StoredWasActive(table, before, lag, s.pending[step.index], s.now);
        EntryStays(table, steps, lag, raw, s'.cache[raw]);
      }
    }
  }

  /**
   Every cache entry records a moment at which the table had the row, a TTL before its
   expiry or at most the lag earlier.
   */
  lemma {:induction false} EntriesWereActive(table: Table, steps: seq<Step>, lag: nat)
    requires Prompt(table, steps, lag)
    ensures CacheInvariant(table, steps, lag)
  {
    if steps != [] {
      var before := steps[..|steps| - 1];
      EntriesWereActive(table, before, lag);
      PendingKept(table, steps, before, Run(table, before));
      CacheKept(table, steps, lag);
    }
  }

  /**
   In every run, an accepted key was active, with that identity, within the last TTL and
   the longest time between a query and its store.
   */
  lemma AcceptedWasActive(table: Table, steps: seq<Step>, lag: nat, raw: string, w: Weather)
    requires Prompt(table, steps, lag)
    ensures var s := Run(table, steps);
            var v := VerdictOf(s.table, s.cache, raw, s.now, w);
            v.Accepted? ==> ActiveSince(table, steps, raw, v.identity, s.now - 60_000 - lag, s.now)
  {
    var s := Run(table, steps);
    var v := VerdictOf(s.table, s.cache, raw, s.now, w);
    if v.Accepted? {
      if w.readOk && Cached(s.cache, raw, s.now).Some? {
        EntriesWereActive(table, steps, lag);
        var e := s.cache[raw];
        var k: nat, at: int :|
          at + 60_000 <= e.expiry <= at + 60_000 + lag
          && ActiveAt(table, steps, k, raw, e.identity, at);
        TimeRuns(table, steps, k);
      } else {
        assert steps[..|steps|] == steps;
        assert ActiveAt(table, steps, |steps|, raw, v.identity, s.now);
      }
    }
  }

  /** A key that was revoked and stayed revoked for a TTL and the lag is refused. */
  lemma RevokedKeysAreRefused(table: Table, steps: seq<Step>, lag: nat, raw: string, w: Weather)
    requires Prompt(table, steps, lag)
    requires var s := Run(table, steps);
             forall k: nat :: k <= |steps| && s.now - 60_000 - lag < Run(table, steps[..k]).now ==>
               Active(Run(table, steps[..k]).table, raw).None?
    ensures var s := Run(table, steps); !VerdictOf(s.table, s.cache, raw, s.now, w).Accepted?
  {
    AcceptedWasActive(table, steps, lag, raw, w);
    forall k: nat, identity: Identity, at: int
      ensures Run(table, steps).now - 60_000 - lag < at ==> !ActiveAt(table, steps, k, raw, identity, at)
    {
    }
  }

  /** A key is queried, revoked, stored late, and used at the very end of its cache entry. */
  function LateRun(raw: string, lag: nat, w: Weather): seq<Step> {
    [Lookup(raw, w), ChangeTable(map[]), Tick(lag), Store(0, true), Tick(ADMIN_CACHE_TTL - 1)]
  }

  function LateState(row: KeyRow, lag: nat, k: nat): State {
    var table := if k < 2 then map[row.hashOf := row] else map[];
    var cache := if k < 4 then map[] else map[row.hashOf := CacheEntry(row.identity, lag + ADMIN_CACHE_TTL)];
    var pending := if 1 <= k < 4 then [Pending(row.hashOf, row.identity, 0)] else [];
    State(if k < 3 then 0 else if k < 5 then lag else lag + ADMIN_CACHE_TTL - 1, table, cache, pending)
  }

  lemma LateStep(row: KeyRow, lag: nat, w: Weather, k: nat)
    requires row.hashOf != "" && w.queryOk && k < 5
    ensures Next(LateState(row, lag, k), LateRun(row.hashOf, lag, w)[k]) == LateState(row, lag, k + 1)
  {
  }

  lemma {:induction false} LateRunStates(row: KeyRow, lag: nat, w: Weather, k: nat)
    requires row.hashOf != "" && w.queryOk && k <= 5
    ensures var steps := LateRun(row.hashOf, lag, w)[..k];
            Run(map[row.hashOf := row], steps) == LateState(row, lag, k) && Prompt(map[row.hashOf := row], steps, lag)
  {
    if k > 0 {
      var table, steps := map[row.hashOf := row], LateRun(row.hashOf, lag, w);
      LateRunStates(row, lag, w, k - 1);
      LateStep(row, lag, w, k - 1);
      assert steps[..k] == steps[..k - 1] + [steps[k - 1]];
      RunSnoc(table, steps[..k - 1], steps[k - 1]);
      PromptSnoc(table, steps[..k - 1], steps[k - 1], lag);
    }
  }

  /** The bound is sharp: a key revoked right after its query is accepted up to a TTL and the lag later. */
  lemma RevokedKeyAccepted(row: KeyRow, lag: nat, w: Weather)
    requires row.hashOf != "" && w.readOk && w.queryOk
    ensures var table, steps := map[row.hashOf := row], LateRun(row.hashOf, lag, w);
            var s := Run(table, steps);
            && Prompt(table, steps, lag)
            && s.now == lag + 60_000 - 1
            && VerdictOf(s.table, s.cache, row.hashOf, s.now, w) == Accepted(row.identity)
            && (forall k: nat :: k <= |steps| && Run(table, steps[..k]).now > 0 ==> Run(table, steps[..k]).table == map[])
  {
    var table, steps := map[row.hashOf := row], LateRun(row.hashOf, lag, w);
    forall k: nat | k <= |steps|
      ensures Run(table, steps[..k]) == LateState(row, lag, k)
    {
      LateRunStates(row, lag, w, k);
    }
    LateRunStates(row, lag, w, 5);
    assert steps[..5] == steps;
  }

  /**
   Only an accepted lookup writes the cache, and only its own key; a hit and a
   rejection change nothing. So a newly active key is accepted at the next query.
   */
  lemma OnlyLookupsWrite(table: Table, cache: Cache, raw: string, now: int, w: Weather)
    ensures var v := VerdictOf(table, cache, raw, now, w);
            var cache' := CacheAfter(table, cache, raw, now, w);
            && (!v.Accepted? ==> cache' == cache)
            && (w.readOk && Cached(cache, raw, now).Some? ==> cache' == cache)
            && (forall other :: other != raw && other in cache ==> other in cache' && cache'[other] == cache[other])
            && (raw != "" && w.queryOk && Active(table, raw).Some? ==> v.Accepted?)
  {
  }

  /**
   Which answer a key gets: none without a key, the cached identity while it lasts, else
   what the table says if it can be asked. A key unknown to the table, or whose stored
   hash was made from another one, is invalid; a failing query is an error of its own.
   */
  lemma AnswersExactly(table: Table, cache: Cache, raw: string, now: int, w: Weather)
    ensures var v := VerdictOf(table, cache, raw, now, w);
            var hit := raw != "" && w.readOk && raw in cache && now < cache[raw].expiry;
            var good := raw in table && table[raw].hashOf == raw;
            && (v == MissingKey <==> raw == "")
            && (v == QueryFailed <==> raw != "" && !hit && !w.queryOk)
            && (v == InvalidKey <==> raw != "" && !hit && w.queryOk && !good)
            && (hit ==> v == Accepted(cache[raw].identity))
            && (raw != "" && !hit && w.queryOk && good ==> v == Accepted(table[raw].identity))
  {
  }

  /** A fresh answer of the table is cached for 60 s, if the write is applied; then the key is accepted without it. */
  lemma CachedForAMinute(table: Table, cache: Cache, raw: string, now: int, w: Weather, later: int, w': Weather)
    requires raw != "" && !(w.readOk && raw in cache && now < cache[raw].expiry)
    requires w.queryOk && (w.writeOk || w.writeApplied) && raw in table && table[raw].hashOf == raw
    requires w'.readOk && !w'.queryOk && now <= later
    ensures VerdictOf(map[], CacheAfter(table, cache, raw, now, w), raw, later, w') ==
            if later < now + 60_000 then Accepted(table[raw].identity) else QueryFailed
  {
  }
}
