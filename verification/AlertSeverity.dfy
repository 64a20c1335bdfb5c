/**
 Classification of gateway events: tier, fingerprint and channel matrix.

 The fingerprint joins free strings with colons, and the dedup gate knows events
 by fingerprint alone. Which lower-tier events could therefore claim the window of
 a critical one is a parsing question, answered exactly by `ShadowsExactly`.
 Titles and bodies are represented by the event they are built from.
 */
module AlertSeverity {

  datatype Severity = Critical | Warning | Info

  /** A decoded payload of one of the four event streams. */
  datatype Event =
    | Breaker(upstream: string, state: string)
    | Shed(upstream: string, state: string)
    | Emerg(kind: string, state: string)
    | Primary(kind: string, state: string, reason: string)

  datatype Message = Message(severity: Severity, fingerprint: string, about: Event)

  const PRIMARY_LLM := "local-llm"
  const DEATH := "primary_death_confirmed"

  predicate EmergCritical(state: string) {
    state == "emergency_provisioning" || state == "emergency_active"
  }

  predicate EmergWarning(state: string) {
    state == "failed_over" || state == "recovering"
  }

  function SeverityOf(e: Event): Severity {
    match e
    case Breaker(upstream, state) =>
      if state == "open" then (if upstream == PRIMARY_LLM then Critical else Warning) else Info
    case Shed(_, state) => if state == "on" then Warning else Info
    case Emerg(_, state) =>
      if EmergCritical(state) then Critical else if EmergWarning(state) then Warning else Info
    case Primary(kind, _, _) => if kind == DEATH then Critical else Info
  }

  function Fingerprint(e: Event): string {
    match e
    case Breaker(upstream, state) => "breaker:" + upstream + ":" + state
    case Shed(upstream, state) => "shed:" + upstream + ":" + state
    case Emerg(kind, state) => "emerg:" + kind + ":" + state
    case Primary(kind, state, reason) =>
      if kind == DEATH then "primary:death:" + reason else "primary:" + kind + ":" + state
  }

  function Classify(e: Event): Message {
    Message(SeverityOf(e), Fingerprint(e), e)
  }

  function ChannelsFor(s: Severity): seq<string> {
    match s
    case Critical => ["chatwoot", "clickup", "brevo"]
    case Warning => ["clickup", "brevo"]
    case Info => []
  }

  /** Who is paged: exactly a primary GPU outage, an emergency pod, or a confirmed primary death. */
  lemma WhoIsPaged(e: Event)
    ensures "chatwoot" in ChannelsFor(SeverityOf(e)) <==>
            || e == Breaker(PRIMARY_LLM, "open")
            || (e.Emerg? && (e.state == "emergency_provisioning" || e.state == "emergency_active"))
            || (e.Primary? && e.kind == DEATH)
    ensures ChannelsFor(SeverityOf(e)) == [] <==> SeverityOf(e) == Info
    ensures "clickup" in ChannelsFor(SeverityOf(e)) <==> "brevo" in ChannelsFor(SeverityOf(e))
    ensures "chatwoot" in ChannelsFor(SeverityOf(e)) ==> "clickup" in ChannelsFor(SeverityOf(e))
  {
  }

  /** The events that page the on-call channel, by what they say. */
  predicate Pages(e: Event) {
    || (e.Breaker? && e.upstream == "local-llm" && e.state == "open")
    || (e.Emerg? && e.state in ["emergency_provisioning", "emergency_active"])
    || (e.Primary? && e.kind == "primary_death_confirmed")
  }

  /** The events the task and mail channels hear of besides. */
  predicate Warns(e: Event) {
    || (e.Breaker? && e.upstream != "local-llm" && e.state == "open")
    || (e.Shed? && e.state == "on")
    || (e.Emerg? && e.state in ["failed_over", "recovering"])
  }

  predicate Reaches(e: Event, channel: string) {
    || (Pages(e) && channel in ["chatwoot", "clickup", "brevo"])
    || (Warns(e) && channel in ["clickup", "brevo"])
  }

  /** The tiers and the channel matrix together: who hears of an event, channel by channel. */
  lemma WhoIsAlerted(e: Event, channel: string)
    ensures channel in ChannelsFor(SeverityOf(e)) <==> Reaches(e, channel)
    ensures SeverityOf(e) == Critical <==> Pages(e)
    ensures "clickup" in ChannelsFor(SeverityOf(e)) <==>
            || (e.Breaker? && e.state == "open")
            || (e.Shed? && e.state == "on")
            || (e.Emerg? && e.state in ["emergency_provisioning", "emergency_active", "failed_over", "recovering"])
            || (e.Primary? && e.kind == "primary_death_confirmed")
  {
  }

  // ---- Parsing colon-joined strings ----

  predicate ColonFree(s: string) {
    ':' !in s
  }

  predicate EndsWith(s: string, tail: string) {
    |tail| <= |s| && s[|s| - |tail|..] == tail
  }

  lemma SuffixColon(s: string, tail: string)
    requires ':' in tail
    ensures EndsWith(s, tail) ==> !ColonFree(s)
  {
    var i :| 0 <= i < |tail| && tail[i] == ':';
    assert EndsWith(s, tail) ==> s[|s| - |tail|..][i] in s;
  }

  lemma PrefixColon(s: string, head: string)
    requires ':' in head
    ensures head <= s ==> !ColonFree(s)
  {
    var i :| 0 <= i < |head| && head[i] == ':';
    assert head <= s ==> s[i] == ':';
  }

  lemma JoinAt(a: string, s: string, k: nat)
    requires k < |a| + 1 + |s|
    ensures (a + ":" + s)[k] == if k < |a| then a[k] else if k == |a| then ':' else s[k - |a| - 1]
  {
  }

  /** A colon-free last part is recovered from the join. */
  lemma LastPart(a: string, s: string, b: string, t: string)
    requires a + ":" + s == b + ":" + t
    requires ColonFree(s)
    ensures |s| <= |t|
    ensures |s| == |t| ==> a == b && s == t
    ensures |s| < |t| ==> EndsWith(t, ":" + s)
  {
    var x, y := a + ":" + s, b + ":" + t;
    assert |x| == |y|;
    JoinAt(a, s, |b|);
    JoinAt(b, t, |b|);
    assert x[..|a|] == a && y[..|b|] == b;
    assert x[|a| + 1..] == s && y[|b| + 1..] == t;
    if |s| < |t| {
      assert t[|t| - |s| - 1..] == y[|a|..] == x[|a|..] == ":" + s;
    }
  }

  /** A colon-free first part is recovered from the join. */
  lemma FirstPart(a: string, s: string, b: string, t: string)
    requires a + ":" + s == b + ":" + t
    requires ColonFree(a)
    ensures |a| <= |b|
    ensures |a| == |b| ==> a == b && s == t
    ensures |a| < |b| ==> a + ":" <= b
  {
    var x, y := a + ":" + s, b + ":" + t;
    JoinAt(a, s, |b|);
    JoinAt(b, t, |b|);
    assert x[..|a|] == a && y[..|b|] == b;
    assert x[|a| + 1..] == s && y[|b| + 1..] == t;
    if |a| < |b| {
      assert b[..|a| + 1] == y[..|a| + 1] == x[..|a| + 1] == a + ":";
    }
  }

  function Source(e: Event): string {
    match e
    case Breaker(_, _) => "breaker:"
    case Shed(_, _) => "shed:"
    case Emerg(_, _) => "emerg:"
    case Primary(_, _, _) => "primary:"
  }

  /** Two events with one fingerprint come from one stream, with equal tails. */
  lemma SameSource(e: Event, f: Event)
    requires Fingerprint(e) == Fingerprint(f)
    ensures Source(e) == Source(f)
    ensures Fingerprint(e)[|Source(e)|..] == Fingerprint(f)[|Source(f)|..]
  {
    assert Fingerprint(e)[0] == Source(e)[0];
    assert Fingerprint(f)[0] == Source(f)[0];
  }

  /** The part of a fingerprint after its source. */
  function Tail(e: Event): string {
    match e
    case Breaker(upstream, state) => upstream + ":" + state
    case Shed(upstream, state) => upstream + ":" + state
    case Emerg(kind, state) => kind + ":" + state
    case Primary(kind, state, reason) => if kind == DEATH then "death" + ":" + reason else kind + ":" + state
  }

  lemma FingerprintIsSourceAndTail(e: Event)
    ensures Fingerprint(e) == Source(e) + Tail(e)
  {
    if e.Primary? && e.kind == DEATH {
      assert "primary:death:" == "primary:" + "death" + ":";
    }
  }

  lemma SameTail(e: Event, f: Event)
    requires Fingerprint(e) == Fingerprint(f)
    ensures Source(e) == Source(f) && Tail(e) == Tail(f)
  {
    SameSource(e, f);
    FingerprintIsSourceAndTail(e);
    FingerprintIsSourceAndTail(f);
    assert Fingerprint(e)[|Source(e)|..] == Tail(e);
    assert Fingerprint(f)[|Source(f)|..] == Tail(f);
  }

  // ---- Fingerprints against tiers ----

  /** What keeps the joins unambiguous. */
  predicate WellFormed(e: Event) {
    match e
    case Breaker(_, state) => ColonFree(state)
    case Shed(_, state) => ColonFree(state)
    case Emerg(_, state) => ColonFree(state)
    case Primary(kind, _, _) => kind == DEATH || (ColonFree(kind) && kind != "death")
  }

  lemma FingerprintDeterminesSeverity(e: Event, f: Event)
    requires WellFormed(e) && WellFormed(f)
    requires Fingerprint(e) == Fingerprint(f)
    ensures SeverityOf(e) == SeverityOf(f)
  {
    SameTail(e, f);
    match e
    case Breaker(upstream, state) =>
      LastPart(upstream, state, f.upstream, f.state);
      LastPart(f.upstream, f.state, upstream, state);
    case Shed(upstream, state) =>
      LastPart(upstream, state, f.upstream, f.state);
      LastPart(f.upstream, f.state, upstream, state);
    case Emerg(kind, state) =>
      LastPart(kind, state, f.kind, f.state);
      LastPart(f.kind, f.state, kind, state);
    case Primary(_, _, _) =>
      if e.kind == DEATH && f.kind != DEATH {
        DeathTail(e.reason, f.kind, f.state);
      }
      if f.kind == DEATH && e.kind != DEATH {
        DeathTail(f.reason, e.kind, e.state);
      }
  }

  /** What a fingerprint tells apart: stream, upstream or type, and state; a confirmed death by its reason. */
  predicate SameIncident(e: Event, f: Event) {
    || (e.Breaker? && f.Breaker? && e.upstream == f.upstream && e.state == f.state)
    || (e.Shed? && f.Shed? && e.upstream == f.upstream && e.state == f.state)
    || (e.Emerg? && f.Emerg? && e.kind == f.kind && e.state == f.state)
    || (e.Primary? && f.Primary? && e.kind == f.kind &&
        if e.kind == "primary_death_confirmed" then e.reason == f.reason else e.state == f.state)
  }

  /** Under the colon conditions the fingerprint identifies the incident. */
  lemma FingerprintIdentifiesIncident(e: Event, f: Event)
    requires WellFormed(e) && WellFormed(f)
    ensures Fingerprint(e) == Fingerprint(f) <==> SameIncident(e, f)
  {
    if Fingerprint(e) == Fingerprint(f) {
      SameTail(e, f);
      FingerprintDeterminesSeverity(e, f);
      match e
      case Breaker(upstream, state) =>
        LastPart(upstream, state, f.upstream, f.state);
        LastPart(f.upstream, f.state, upstream, state);
      case Shed(upstream, state) =>
        LastPart(upstream, state, f.upstream, f.state);
        LastPart(f.upstream, f.state, upstream, state);
      case Emerg(kind, state) =>
        LastPart(kind, state, f.kind, f.state);
        LastPart(f.kind, f.state, kind, state);
      case Primary(kind, state, reason) =>
        if kind == DEATH {
          FirstPart("death", reason, "death", f.reason);
        } else {
          FirstPart(kind, state, f.kind, f.state);
          FirstPart(f.kind, f.state, kind, state);
        }
    }
  }

  /** Only the kind `death`, or one that begins `death:`, imitates a confirmed death. */
  lemma DeathTail(reason: string, kind: string, state: string)
    requires "death" + ":" + reason == kind + ":" + state
    ensures kind == "death" || "death" + ":" <= kind
    ensures ColonFree(kind) ==> kind == "death"
  {
    FirstPart("death", reason, kind, state);
    PrefixColon(kind, "death" + ":");
  }

  predicate EndsInCritical(state: string) {
    EndsWith(state, ":" + "emergency_active") || EndsWith(state, ":" + "emergency_provisioning")
  }

  /**
   A lower-tier event that carries the fingerprint of some critical one: an
   emergency event whose state ends in a colon and a critical state, or a primary
   event of kind `death` or `death:...`. No breaker or shed event does.
   */
  predicate Shadows(e: Event) {
    match e
    case Breaker(_, _) => false
    case Shed(_, _) => false
    case Emerg(_, state) => EndsInCritical(state)
    case Primary(kind, _, _) => kind == "death" || "death" + ":" <= kind
  }

  lemma ShadowsExactly(e: Event)
    ensures Shadows(e) <==>
            (SeverityOf(e) != Critical
             && exists c: Event :: SeverityOf(c) == Critical && Fingerprint(c) == Fingerprint(e))
  {
    if Shadows(e) {
      VictimIsHidden(e);
    }
    forall c: Event | SeverityOf(c) == Critical && Fingerprint(c) == Fingerprint(e) && SeverityOf(e) != Critical
      ensures Shadows(e)
    {
      OnlyShadowsShareCritical(c, e);
    }
  }

  /** A critical event that a shadow hides. */
  function Victim(e: Event): Event
    requires Shadows(e)
  {
    match e
    case Emerg(kind, state) =>
      var critical := if EndsWith(state, ":" + "emergency_active") then "emergency_active" else "emergency_provisioning";
      Emerg(kind + ":" + state[..|state| - |critical| - 1], critical)
    case Primary(kind, state, _) =>
      Primary(DEATH, "", if kind == "death" then state else kind[6..] + ":" + state)
  }

  lemma VictimIsHidden(e: Event)
    requires Shadows(e)
    ensures SeverityOf(Victim(e)) == Critical && Fingerprint(Victim(e)) == Fingerprint(e) && SeverityOf(e) != Critical
  {
    match e
    case Emerg(kind, state) => EmergVictimIsHidden(kind, state);
    case Primary(kind, state, reason) => DeathVictimIsHidden(kind, state, reason);
  }

  lemma EmergVictimIsHidden(kind: string, state: string)
    requires EndsInCritical(state)
    ensures var e := Emerg(kind, state);
            SeverityOf(Victim(e)) == Critical && Fingerprint(Victim(e)) == Fingerprint(e) && SeverityOf(e) != Critical
  {
    var c := Victim(Emerg(kind, state));
    CutState(kind, state, c.state);
    ColonStateIsNotCritical(state);
    assert Fingerprint(c) == "emerg:" + (c.kind + ":" + c.state);
    assert Fingerprint(Emerg(kind, state)) == "emerg:" + (kind + ":" + state);
  }

  lemma DeathVictimIsHidden(kind: string, state: string, reason: string)
    requires kind == "death" || "death" + ":" <= kind
    ensures var e := Primary(kind, state, reason);
            SeverityOf(Victim(e)) == Critical && Fingerprint(Victim(e)) == Fingerprint(e) && SeverityOf(e) != Critical
  {
    var e := Primary(kind, state, reason);
    DeathKindTail(kind, state);
    FingerprintIsSourceAndTail(e);
    FingerprintIsSourceAndTail(Victim(e));
  }

  lemma ColonStateIsNotCritical(state: string)
    ensures EndsInCritical(state) ==> !EmergCritical(state)
  {
    SuffixColon(state, ":" + "emergency_active");
    SuffixColon(state, ":" + "emergency_provisioning");
    AlertingStatesAreColonFree(state);
  }

  lemma DeathKindTail(kind: string, state: string)
    requires kind == "death" || "death" + ":" <= kind
    ensures kind != DEATH
    ensures "death" + ":" + (if kind == "death" then state else kind[6..] + ":" + state) == kind + ":" + state
  {
    assert kind[0] == 'd';
    if kind != "death" {
      assert kind == "death" + ":" + kind[6..];
    }
  }

  lemma CutState(kind: string, state: string, tail: string)
    requires EndsWith(state, ":" + tail)
    ensures kind + ":" + state[..|state| - |tail| - 1] + ":" + tail == kind + ":" + state
  {
    var cut := |state| - |tail| - 1;
    assert state == state[..cut] + state[cut..];
    assert state[cut..] == ":" + tail;
    assert kind + ":" + state[..cut] + ":" + tail == kind + ":" + (state[..cut] + (":" + tail));
  }

  lemma AlertingStatesAreColonFree(state: string)
    ensures EmergCritical(state) || EmergWarning(state) ==> ColonFree(state)
  {
  }

  lemma OnlyShadowsShareCritical(c: Event, e: Event)
    requires SeverityOf(c) == Critical && SeverityOf(e) != Critical
    requires Fingerprint(c) == Fingerprint(e)
    ensures Shadows(e)
  {
    SameTail(c, e);
    match c
    case Breaker(upstream, state) =>
      FirstPart(upstream, state, e.upstream, e.state);
      LastPart(upstream, state, e.upstream, e.state);
    case Emerg(kind, state) =>
      AlertingStatesAreColonFree(state);
      LastPart(kind, state, e.kind, e.state);
    case Primary(_, _, reason) =>
      DeathTail(reason, e.kind, e.state);
  }

  lemma WellFormedDoesNotShadow(e: Event)
    requires WellFormed(e)
    ensures !Shadows(e)
  {
    match e
    case Emerg(_, state) =>
      SuffixColon(state, ":" + "emergency_active");
      SuffixColon(state, ":" + "emergency_provisioning");
    case Primary(kind, _, _) =>
      PrefixColon(kind, "death" + ":");
    case Breaker(_, _) =>
    case Shed(_, _) =>
  }

  /**
   The design says only transition events of the emergency machine are alert-worthy.
   The code looks at the state alone, so a command event stays at the info tier
   exactly when its state is none of the four alerting ones.
   */
  lemma EmergKindIsIgnored(kind: string, state: string)
    ensures SeverityOf(Emerg(kind, state)) == SeverityOf(Emerg("transition", state))
    ensures SeverityOf(Emerg(kind, state)) == Info <==> !EmergCritical(state) && !EmergWarning(state)
  {
  }
}
