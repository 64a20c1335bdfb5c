/**
 The alerter as code: the dedup call on the shared store, `handleEvent`, boot
 reconciliation and one worker's steps, each proved to do what `AlertPipeline` says.
 */
module Alerter {
  import opened AlertSeverity
  import opened AlertPipeline
  import opened Options

  /** The shared Redis: dedup keys with their expiry, and the clock they expire by. */
  class DedupStore {
    var now: int
    var claims: Claims

    constructor (now: int)
      ensures this.now == now && claims == map[]
    {
      this.now := now;
      claims := map[];
    }

    /** SET NX EX. `err` is what the caller sees; `reply` says what really happened. */
    method SetNX(key: string, reply: Reply) returns (ok: bool, err: bool)
      modifies this`claims
      ensures err == reply.Failed?
      ensures !err ==> ok == !old(Held(claims, key, now))
      ensures claims == ClaimsAfter(old(claims), key, now, reply)
      ensures claims == if reply == Failed(false) || (key in old(claims) && now < old(claims)[key]) then old(claims)
                        else old(claims)[key := now + 300_000]
    {
      ok := !Held(claims, key, now);
      err := reply.Failed?;
      if ok && reply != Failed(false) {
        claims := claims[key := now + DEDUP_TTL];
      }
    }
  }

  /** The mirrored emergency state read at boot. */
  datatype Mirror = ReadFailed | Absent | Mirrored(state: string)

  /** The event a restart during an incident synthesises, and whether it skips the gate. */
  function BootEvent(mirror: Mirror): Option<Event> {
    if mirror.Mirrored? && (EmergCritical(mirror.state) || EmergWarning(mirror.state))
    then Some(Emerg("transition", mirror.state)) else None
  }

  predicate BootBypasses(mirror: Mirror) {
    mirror.Mirrored? && EmergCritical(mirror.state)
  }

  /**
   A gateway process: per configured channel a bounded queue, and the job its worker is
   sending. `life` is the history the conservation results speak about.
   */
  class Process {
    const rdb: DedupStore
    var queues: map<string, seq<Message>>
    var sending: map<string, Message>
    ghost var life: Life

    ghost predicate Valid()
      reads this
    {
      && queues.Keys == life.workers.Keys && sending.Keys <= queues.Keys
      && forall c :: c in queues ==>
           && queues[c] == life.workers[c].queue
           && life.workers[c].inHand == if c in sending then Some(sending[c]) else None
    }

    constructor (rdb: DedupStore, channels: set<string>)
      ensures Valid() && this.rdb == rdb && life == NewLife(channels)
    {
      this.rdb := rdb;
      queues := map c | c in channels :: [];
      sending := map[];
      life := NewLife(channels);
    }

    method DedupShouldSend(severity: Severity, fingerprint: string, reply: Reply) returns (send: bool)
      modifies rdb`claims
      ensures send == ShouldSend(old(rdb.claims), severity, fingerprint, rdb.now, reply)
      ensures rdb.claims == ClaimsAfter(old(rdb.claims), fingerprint, rdb.now, reply)
    {
      var ok, err := rdb.SetNX(fingerprint, reply);
      if err {
        return severity == Critical;
      }
      return ok;
    }

    /** The non-blocking enqueue of one fan-out target. */
    method Enqueue(name: string, m: Message)
      requires Valid()
      modifies this`queues, this`life
      ensures Valid() && life == OfferTo(old(life), name, m)
    {
      if name in queues && |queues[name]| < QUEUE_DEPTH {
        queues := queues[name := queues[name] + [m]];
      }
      life := OfferTo(life, name, m);
    }

    method DispatchAll(m: Message)
      requires Valid()
      modifies this`queues, this`life
      ensures Valid() && life == Dispatch(old(life), m)
    {
      life := life.(dispatched := life.dispatched + [m]);
      ghost var start := life;
      var targets := ChannelsFor(m.severity);
      for i := 0 to |targets|
        invariant Valid() && life == FanOut(start, targets[..i], m)
      {
        assert targets[..i + 1][..i] == targets[..i];
        Enqueue(targets[i], m);
      }
      assert targets[..|targets|] == targets;
    }

    lemma EveryChannelReached(e: Event, reply: Reply, bypass: bool)
      requires Valid()
      ensures var h := Handle(life, rdb.claims, rdb.now, Classify(e), reply, bypass);
              && h.life.workers.Keys == queues.Keys
              && forall name :: name in queues ==>
                   h.life.workers[name].queue ==
                   if GateOpen(rdb.claims, rdb.now, e, reply, bypass) && Reaches(e, name) && |queues[name]| < 64
                   then queues[name] + [Classify(e)] else queues[name]
    {
      EventReachesItsChannels(life, rdb.claims, rdb.now, e, reply, bypass, "");
      forall name | name in queues
        ensures Handle(life, rdb.claims, rdb.now, Classify(e), reply, bypass).life.workers[name].queue ==
                if GateOpen(rdb.claims, rdb.now, e, reply, bypass) && Reaches(e, name) && |queues[name]| < 64
                then queues[name] + [Classify(e)] else queues[name]
      {
        EventReachesItsChannels(life, rdb.claims, rdb.now, e, reply, bypass, name);
      }
    }

    /**
     None is a payload that does not decode. Any other is appended to exactly the queues
     of the configured channels the event reaches, when the gate is open and they have room.
     */
    method HandleEvent(payload: Option<Event>, bypassDedup: bool, reply: Reply)
      requires Valid()
      modifies this`queues, this`life, rdb`claims
      ensures Valid()
      ensures payload.None? ==> life == old(life) && rdb.claims == old(rdb.claims)
      ensures payload.Some? ==>
                var h := Handle(old(life), old(rdb.claims), rdb.now, Classify(payload.value), reply, bypassDedup);
                life == h.life && rdb.claims == h.claims
      ensures payload.Some? ==>
                forall name :: name in queues ==>
                  && name in old(queues)
                  && queues[name] ==
                     if GateOpen(old(rdb.claims), rdb.now, payload.value, reply, bypassDedup)
                        && Reaches(payload.value, name) && |old(queues)[name]| < 64
                     then old(queues)[name] + [Classify(payload.value)] else old(queues)[name]
    {
      if payload.None? {
        return;
      }
      EveryChannelReached(payload.value, reply, bypassDedup);
      var m := Classify(payload.value);
      if !bypassDedup {
        var send := DedupShouldSend(m.severity, m.fingerprint, reply);
        if !send {
          return;
        }
      }
      DispatchAll(m);
    }

    method ReconcileBoot(mirror: Mirror, reply: Reply)
      requires Valid()
      modifies this`queues, this`life, rdb`claims
      ensures Valid()
      ensures BootEvent(mirror).None? ==> life == old(life) && rdb.claims == old(rdb.claims)
      ensures BootEvent(mirror).Some? ==>
                var m := Classify(BootEvent(mirror).value);
                var h := Handle(old(life), old(rdb.claims), rdb.now, m, reply, BootBypasses(mirror));
                life == h.life && rdb.claims == h.claims
    {
      if !mirror.Mirrored? {
        return;
      }
      var critical := EmergCritical(mirror.state);
      if !critical && !EmergWarning(mirror.state) {
        return;
      }
      HandleEvent(Some(Emerg("transition", mirror.state)), critical, reply);
    }

    /** The worker of a channel receives a job, if it is free and there is one. */
    method WorkerTake(name: string)
      requires Valid() && name in queues
      modifies this
      ensures Valid() && life == old(life).(workers := old(life).workers[name := Take(old(life).workers[name])])
    {
      if name !in sending && queues[name] != [] {
        sending := sending[name := queues[name][0]];
        queues := queues[name := queues[name][1..]];
      }
      life := life.(workers := life.workers[name := Take(life.workers[name])]);
    }

    /** The worker's Send returns, whatever its result. */
    method WorkerFinish(name: string)
      requires Valid() && name in queues
      modifies this`sending, this`life
      ensures Valid() && life == old(life).(workers := old(life).workers[name := Finish(old(life).workers[name])])
    {
      sending := map c | c in sending && c != name :: sending[c];
      life := life.(workers := life.workers[name := Finish(life.workers[name])]);
    }
  }
}
